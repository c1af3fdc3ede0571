/** What whole histories of promotions and demotions guarantee. */
module CalibrationHistory {
  import opened Lifecycle
  import opened Calibration

  // ---------------------------------------------------------------- effects of one operation

  /** Scores a promotion can start from and a demotion can leave. */
  ghost predicate ScoresInRange(w: World) {
    forall t :: t in w.score ==> BASELINE <= w.score[t] <= AUTO_THRESHOLD
  }

  lemma DemotionRevokes(k: Knobs, w: World, tool: nat, routine: string, t: nat, r: string)
    requires tool in w.score
    ensures HasLive(DemoteTool(k, w, tool, routine).value, t, r) <==>
      HasLive(w, t, r) && !(t == tool && (routine == "" || routine == r))
  {
    var v := DemoteTool(k, w, tool, routine).value;
    if HasLive(w, t, r) && !(t == tool && (routine == "" || routine == r)) {
      var i :| 0 <= i < |w.grants| && IsLive(w.grants[i], t, r);
      assert IsLive(v.grants[i], t, r);
    }
  }

  lemma DemotionsRevoke(k: Knobs, w: World, task: nat, t: nat, r: string)
    requires var tools := ToolsActed(w.outcomes, task); forall u :: u in tools ==> u in w.score
    ensures var tools := ToolsActed(w.outcomes, task);
      DemoteTools(k, w, tools).Some? && (HasLive(DemoteTools(k, w, tools).value, t, r) <==> HasLive(w, t, r) && t !in tools)
  {
    var tools := ToolsActed(w.outcomes, task);
    ToolsActedExact(w.outcomes, task);
    DemoteToolsExact(k, w, tools);
    var v := DemoteTools(k, w, tools).value;
    if HasLive(w, t, r) && t !in tools {
      var i :| 0 <= i < |w.grants| && IsLive(w.grants[i], t, r);
      assert IsLive(v.grants[i], t, r);
    }
  }

  lemma DemoteForTaskFails(k: Knobs, w: World, task: nat)
    requires var tools := ToolsActed(w.outcomes, task); exists u :: u in tools && u !in w.score
    ensures Do(k, w, DemoteForTask(task)) == w
  {
    hide DemoteTools, ToolsActed;
    ToolsActedExact(w.outcomes, task);
    DemoteToolsExact(k, w, ToolsActed(w.outcomes, task));
  }

  /** A live grant is one that was live and is not revoked, or one the owner just accepted. */
  lemma LiveStep(k: Knobs, w: World, op: Op, t: nat, r: string)
    ensures HasLive(Do(k, w, op), t, r) <==> (HasLive(w, t, r) && !Revokes(w, op, t, r)) || Accepts(w, op, t, r)
  {
    match op
    case RecordBad(tool, task, routine, matured) =>
      if tool in w.score {
        DemotionRevokes(k, Record(w, Outcome(tool, task, false, w.now, matured, Some(routine))), tool, routine, t, r);
      }
    case FlagBad(tool, task, matured) =>
      if tool in w.score {
        DemotionRevokes(k, Record(w, Flagged(w, tool, task, matured)), tool, FlagRoutine(w, tool, task), t, r);
      }
    case DemoteForTask(task) => TaskLive(k, w, task, t, r);
    case Respond(i, accept) => RespondLive(k, w, i, accept, t, r);
    case _ =>
  }

  lemma TaskLive(k: Knobs, w: World, task: nat, t: nat, r: string)
    ensures HasLive(Do(k, w, DemoteForTask(task)), t, r) <==> HasLive(w, t, r) && !Revokes(w, DemoteForTask(task), t, r)
  {
    if forall u :: u in ToolsActed(w.outcomes, task) ==> u in w.score {
      DemotionsRevoke(k, w, task, t, r);
    } else {
      DemoteForTaskFails(k, w, task);
    }
  }

  lemma RespondLive(k: Knobs, w: World, i: nat, accept: bool, t: nat, r: string)
    ensures HasLive(Do(k, w, Respond(i, accept)), t, r) <==> HasLive(w, t, r) || Accepts(w, Respond(i, accept), t, r)
  {
    var v := Do(k, w, Respond(i, accept));
    if HasLive(w, t, r) {
      var j :| 0 <= j < |w.grants| && IsLive(w.grants[j], t, r);
      assert IsLive(v.grants[j], t, r);
    }
    if Accepts(w, Respond(i, accept), t, r) {
      assert IsLive(v.grants[|w.grants|], t, r);
    }
  }

  ghost predicate Promotes(w: World, op: Op, tool: nat) {
    exists r :: Accepts(w, op, tool, r)
  }

  ghost predicate IsAuto(w: World, tool: nat) {
    tool in w.score && Band(w.score[tool]) == ExecuteAuto
  }

  /** If the operation demotes a tool, it does so with a positive decrement. */
  ghost predicate Lowers(k: Knobs, w: World, op: Op) {
    forall t :: Demotes(w, op, t) ==> k.decrement > 0.0
  }

  /** A tool is in the auto band exactly when it was there and is not demoted, or the owner just accepted
      a promotion of it. */
  lemma ScoreStep(k: Knobs, w: World, op: Op)
    requires ScoresInRange(w) && Lowers(k, w, op)
    ensures var v := Do(k, w, op);
      && ScoresInRange(v) && v.score.Keys == w.score.Keys
      && forall t :: IsAuto(v, t) <==> (IsAuto(w, t) && !Demotes(w, op, t)) || Promotes(w, op, t)
  {
    match op
    case RecordBad(tool, task, routine, matured) =>
      assert forall t: nat :: DemotesWith(w, op, t, routine) <==> t == tool && t in w.score;
      DemotionScore(k, w, op, Outcome(tool, task, false, w.now, matured, Some(routine)), routine);
    case FlagBad(tool, task, matured) =>
      assert forall t: nat :: DemotesWith(w, op, t, FlagRoutine(w, tool, task)) <==> t == tool && t in w.score;
      DemotionScore(k, w, op, Flagged(w, tool, task, matured), FlagRoutine(w, tool, task));
    case DemoteForTask(task) => TaskScore(k, w, task);
    case Respond(i, accept) => RespondScore(k, w, i, accept);
    case _ =>
  }

  lemma DemotionScore(k: Knobs, w: World, op: Op, o: Outcome, routine: string)
    requires ScoresInRange(w) && Lowers(k, w, op)
    requires Do(k, w, op) == RecordAndDemote(k, w, o, routine)
    requires forall t :: Demotes(w, op, t) <==> t == o.tool && t in w.score
    requires forall t :: !Promotes(w, op, t)
    ensures var v := Do(k, w, op);
      && ScoresInRange(v) && v.score.Keys == w.score.Keys
      && forall t :: IsAuto(v, t) <==> IsAuto(w, t) && !Demotes(w, op, t)
  {
    hide Demotes, Do;
  }

  lemma TaskScore(k: Knobs, w: World, task: nat)
    requires ScoresInRange(w) && Lowers(k, w, DemoteForTask(task))
    ensures var v := Do(k, w, DemoteForTask(task));
      && ScoresInRange(v) && v.score.Keys == w.score.Keys
      && forall t :: IsAuto(v, t) <==> (IsAuto(w, t) && !Demotes(w, DemoteForTask(task), t)) || Promotes(w, DemoteForTask(task), t)
  {
    hide DemoteTools;
    var tools := ToolsActed(w.outcomes, task);
    ToolsActedExact(w.outcomes, task);
    DemoteToolsExact(k, w, tools);
    forall t
      ensures Demotes(w, DemoteForTask(task), t) <==> t in tools && forall u :: u in tools ==> u in w.score
    {
      assert DemotesWith(w, DemoteForTask(task), t, "") <==> t in tools && forall u :: u in tools ==> u in w.score;
    }
  }

  lemma RespondScore(k: Knobs, w: World, i: nat, accept: bool)
    requires ScoresInRange(w)
    ensures var v := Do(k, w, Respond(i, accept));
      && ScoresInRange(v) && v.score.Keys == w.score.Keys
      && forall t :: IsAuto(v, t) <==> IsAuto(w, t) || Promotes(w, Respond(i, accept), t)
  {
    if accept && Responded(w, i, accept).Some? {
      assert Accepts(w, Respond(i, accept), w.proposals[i].tool, w.proposals[i].routine);
    }
  }

  // ---------------------------------------------------------------- what is recorded, what an answer does

  /** The outcome is of that tool and task, and none after it is. */
  ghost predicate LatestOf(outcomes: seq<Outcome>, tool: nat, task: nat, i: nat) {
    && i < |outcomes| && outcomes[i].tool == tool && outcomes[i].task == task
    && forall j :: i < j < |outcomes| ==> !(outcomes[j].tool == tool && outcomes[j].task == task)
  }

  /** The latest outcome of a tool under a task decides the routine that is flagged, if there is any. */
  lemma {:induction false} LatestRoutineExact(outcomes: seq<Outcome>, tool: nat, task: nat)
    ensures (exists i: nat :: LatestOf(outcomes, tool, task, i) && LatestRoutine(outcomes, tool, task) == outcomes[i].routine)
      || ((forall i :: 0 <= i < |outcomes| ==> !(outcomes[i].tool == tool && outcomes[i].task == task))
          && LatestRoutine(outcomes, tool, task) == None)
    decreases |outcomes|
  {
    if outcomes != [] {
      var n := |outcomes| - 1;
      var init := outcomes[..n];
      if outcomes[n].tool == tool && outcomes[n].task == task {
        assert LatestOf(outcomes, tool, task, n);
      } else {
        LatestRoutineExact(init, tool, task);
        LatestStays(outcomes, tool, task);
        if i: nat :| LatestOf(init, tool, task, i) && LatestRoutine(init, tool, task) == init[i].routine {
          assert LatestOf(outcomes, tool, task, i);
        }
      }
    }
  }

  lemma LatestStays(outcomes: seq<Outcome>, tool: nat, task: nat)
    requires outcomes != [] && !(outcomes[|outcomes| - 1].tool == tool && outcomes[|outcomes| - 1].task == task)
    ensures forall i: nat :: LatestOf(outcomes[..|outcomes| - 1], tool, task, i) ==> LatestOf(outcomes, tool, task, i)
    ensures forall i :: 0 <= i < |outcomes| - 1 ==> outcomes[..|outcomes| - 1][i] == outcomes[i]
  {
  }

  /** What an operation adds to the outcomes: one clean or bad one of its tool and task, stamped with the
      time it was recorded, or none. A bad one of an unknown tool is not kept. */
  ghost predicate Adds(w: World, op: Op, o: Outcome) {
    && o.at == w.now
    && match op
       case RecordClean(tool, task, routine, matured) => o == Outcome(tool, task, true, o.at, matured, Some(routine))
       case RecordBad(tool, task, routine, matured) =>
         tool in w.score && o == Outcome(tool, task, false, o.at, matured, Some(routine))
       case FlagBad(tool, task, matured) =>
         && tool in w.score && o.tool == tool && o.task == task && !o.clean && o.matured == matured
         && o.routine == (if LatestRoutine(w.outcomes, tool, task) == Some("") then None else LatestRoutine(w.outcomes, tool, task))
       case _ => false
  }

  lemma OutcomesGrow(k: Knobs, w: World, op: Op)
    ensures var added := Do(k, w, op).outcomes;
      || (added == w.outcomes && forall o :: !Adds(w, op, o))
      || (|added| == |w.outcomes| + 1 && added[..|w.outcomes|] == w.outcomes && Adds(w, op, added[|w.outcomes|]))
  {
    hide DemoteTools;
    if op.DemoteForTask? {
      ToolsActedExact(w.outcomes, op.task);
      DemoteToolsExact(k, w, ToolsActed(w.outcomes, op.task));
    }
  }

  /** Outcomes are kept in the order of their time. */
  ghost predicate InOrder(w: World) {
    && (forall i, j :: 0 <= i < j < |w.outcomes| ==> w.outcomes[i].at <= w.outcomes[j].at)
    && (forall i :: 0 <= i < |w.outcomes| ==> w.outcomes[i].at <= w.now)
  }

  lemma ClockStep(k: Knobs, w: World, op: Op)
    ensures Do(k, w, op).now == w.now + if op.Tick? then op.dt else 0
  {
    hide DemoteTools;
    if op.DemoteForTask? {
      ToolsActedExact(w.outcomes, op.task);
      DemoteToolsExact(k, w, ToolsActed(w.outcomes, op.task));
    }
  }

  /** Over any history the list of outcomes only grows, and the last ones in it are the latest. */
  lemma {:induction false} RunKeepsOrder(k: Settings, w: World, ops: seq<Op>)
    requires InOrder(w)
    ensures InOrder(Run(k, w, ops)) && w.outcomes <= Run(k, w, ops).outcomes
    decreases |ops|
  {
    if ops != [] {
      var n := |ops| - 1;
      RunKeepsOrder(k, w, ops[..n]);
      OutcomesGrow(k(n), Run(k, w, ops[..n]), ops[n]);
      ClockStep(k(n), Run(k, w, ops[..n]), ops[n]);
      OrderStep(Run(k, w, ops[..n]), Run(k, w, ops), ops[n]);
    }
  }

  lemma OrderStep(v: World, u: World, op: Op)
    requires InOrder(v) && u.now >= v.now
    requires u.outcomes == v.outcomes || (|u.outcomes| == |v.outcomes| + 1 && u.outcomes[..|v.outcomes|] == v.outcomes && Adds(v, op, u.outcomes[|v.outcomes|]))
    ensures InOrder(u) && v.outcomes <= u.outcomes
  {
    assert forall i :: 0 <= i < |v.outcomes| ==> u.outcomes[i] == v.outcomes[i];
  }

  /** The owner's answer counts only for an open proposal of a known tool, and an acceptance only if the
      routine has no live grant. It resolves that proposal with the answer and the time; an acceptance
      also grants that routine and lifts the score to the threshold, unless it is there already. */
  lemma RespondExact(k: Knobs, w: World, i: nat, accept: bool)
    ensures var v := Do(k, w, Respond(i, accept));
      if i < |w.proposals| && w.proposals[i].resolution == None && w.proposals[i].tool in w.score
        && (accept ==> forall g :: g in w.grants && g.live ==> !(g.tool == w.proposals[i].tool && g.routine == w.proposals[i].routine))
      then
        var tool, routine := w.proposals[i].tool, w.proposals[i].routine;
        && v.now == w.now && v.outcomes == w.outcomes
        && v.proposals == w.proposals[i := Proposal(tool, routine, Some(Resolution(accept, w.now)))]
        && v.grants == (if accept then w.grants + [Grant(tool, routine, true)] else w.grants)
        && v.score.Keys == w.score.Keys && (forall t :: t in w.score && t != tool ==> v.score[t] == w.score[t])
        && (!accept ==> v.score[tool] == w.score[tool])
        && (accept ==> v.score[tool] >= 0.8 && v.score[tool] >= w.score[tool] && v.score[tool] in {0.8, w.score[tool]})
      else v == w
  {
    if i < |w.proposals| {
      var p := w.proposals[i];
      if HasLive(w, p.tool, p.routine) {
        var j :| 0 <= j < |w.grants| && IsLive(w.grants[j], p.tool, p.routine);
        assert w.grants[j] in w.grants;
      } else {
        assert forall g :: g in w.grants && IsLive(g, p.tool, p.routine) ==> HasLive(w, p.tool, p.routine);
      }
    }
  }

  // ---------------------------------------------------------------- the autonomy history

  ghost predicate Fresh(w: World) {
    w.proposals == [] && w.grants == [] && forall t :: t in w.score ==> BASELINE <= w.score[t] < AUTO_THRESHOLD
  }

  /** Every demotion of the run has a positive decrement. */
  ghost predicate AlwaysLowers(k: Settings, w: World, ops: seq<Op>) {
    forall i: nat :: i < |ops| ==> Lowers(k(i), Run(k, w, ops[..i]), ops[i])
  }

  /** Operation i of the run accepts a promotion of the tool, and no later one demotes it. */
  ghost predicate EarnedAt(k: Settings, w: World, ops: seq<Op>, tool: nat, i: nat) {
    && i < |ops|
    && Promotes(Run(k, w, ops[..i]), ops[i], tool)
    && forall j :: i < j < |ops| ==> !Demotes(Run(k, w, ops[..j]), ops[j], tool)
  }

  /** Operation i of the run accepts exactly this routine, and no later one revokes it. */
  ghost predicate GrantedAt(k: Settings, w: World, ops: seq<Op>, tool: nat, routine: string, i: nat) {
    && i < |ops|
    && Accepts(Run(k, w, ops[..i]), ops[i], tool, routine)
    && forall j :: i < j < |ops| ==> !Revokes(Run(k, w, ops[..j]), ops[j], tool, routine)
  }

  ghost predicate Earned(k: Settings, w: World, ops: seq<Op>, tool: nat) {
    exists i :: EarnedAt(k, w, ops, tool, i)
  }

  ghost predicate Granted(k: Settings, w: World, ops: seq<Op>, tool: nat, routine: string) {
    exists i :: GrantedAt(k, w, ops, tool, routine, i)
  }

  lemma Prefixes(ops: seq<Op>)
    requires ops != []
    ensures forall i :: 0 <= i < |ops| ==> ops[..|ops| - 1][..i] == ops[..i]
    ensures forall i :: 0 <= i < |ops| - 1 ==> ops[..|ops| - 1][i] == ops[i]
  {
  }

  lemma LowersShorter(k: Settings, w: World, ops: seq<Op>)
    requires ops != [] && AlwaysLowers(k, w, ops)
    ensures AlwaysLowers(k, w, ops[..|ops| - 1])
    ensures Lowers(k(|ops| - 1), Run(k, w, ops[..|ops| - 1]), ops[|ops| - 1])
  {
    hide Run, Lowers;
    Prefixes(ops);
  }

  /** A tool is in the auto band exactly when the owner accepted a promotion of it after its latest demotion. */
  lemma {:induction false} ScoreHistory(k: Settings, w: World, ops: seq<Op>)
    requires Fresh(w) && AlwaysLowers(k, w, ops)
    ensures ScoresInRange(Run(k, w, ops)) && Run(k, w, ops).score.Keys == w.score.Keys
    ensures forall t :: IsAuto(Run(k, w, ops), t) <==> Earned(k, w, ops, t)
    decreases |ops|
  {
    if ops != [] {
      var n := |ops| - 1;
      LowersShorter(k, w, ops);
      ScoreHistory(k, w, ops[..n]);
      ScoreStep(k(n), Run(k, w, ops[..n]), ops[n]);
      forall t: nat
        ensures IsAuto(Run(k, w, ops), t) <==> Earned(k, w, ops, t)
      {
        ScoreHistoryStep(k, w, ops, t);
      }
    }
  }

  lemma ScoreHistoryStep(k: Settings, w: World, ops: seq<Op>, t: nat)
    requires ops != []
    ensures Earned(k, w, ops, t) <==>
      || Promotes(Run(k, w, ops[..|ops| - 1]), ops[|ops| - 1], t)
      || (!Demotes(Run(k, w, ops[..|ops| - 1]), ops[|ops| - 1], t) && Earned(k, w, ops[..|ops| - 1], t))
  {
    hide Run, Promotes, Demotes;
    var n := |ops| - 1;
    forall i: nat | i < n
      ensures EarnedAt(k, w, ops, t, i) <==> !Demotes(Run(k, w, ops[..n]), ops[n], t) && EarnedAt(k, w, ops[..n], t, i)
    {
      EarnedShorter(k, w, ops, t, i);
    }
    assert EarnedAt(k, w, ops, t, n) <==> Promotes(Run(k, w, ops[..n]), ops[n], t);
  }

  lemma EarnedShorter(k: Settings, w: World, ops: seq<Op>, t: nat, i: nat)
    requires ops != [] && i < |ops| - 1
    ensures EarnedAt(k, w, ops, t, i) <==>
      !Demotes(Run(k, w, ops[..|ops| - 1]), ops[|ops| - 1], t) && EarnedAt(k, w, ops[..|ops| - 1], t, i)
  {
    hide Run, Promotes, Demotes;
    var n := |ops| - 1;
    Prefixes(ops);
    assert ops[..n][..i] == ops[..i];
    assert forall j :: i < j < n ==> ops[..n][..j] == ops[..j];
  }

  /** A live grant for a routine exists exactly when the owner accepted that very routine and nothing
      since revoked it. */
  lemma {:induction false} GrantHistory(k: Settings, w: World, ops: seq<Op>, t: nat, r: string)
    requires Fresh(w)
    ensures HasLive(Run(k, w, ops), t, r) <==> Granted(k, w, ops, t, r)
    decreases |ops|
  {
    if ops != [] {
      var n := |ops| - 1;
      GrantHistory(k, w, ops[..n], t, r);
      LiveStep(k(n), Run(k, w, ops[..n]), ops[n], t, r);
      GrantHistoryStep(k, w, ops, t, r);
    }
  }

  lemma GrantHistoryStep(k: Settings, w: World, ops: seq<Op>, t: nat, r: string)
    requires ops != []
    ensures Granted(k, w, ops, t, r) <==>
      || Accepts(Run(k, w, ops[..|ops| - 1]), ops[|ops| - 1], t, r)
      || (!Revokes(Run(k, w, ops[..|ops| - 1]), ops[|ops| - 1], t, r) && Granted(k, w, ops[..|ops| - 1], t, r))
  {
    var n := |ops| - 1;
    forall i: nat | i < n
      ensures GrantedAt(k, w, ops, t, r, i) <==>
        !Revokes(Run(k, w, ops[..n]), ops[n], t, r) && GrantedAt(k, w, ops[..n], t, r, i)
    {
      GrantedShorter(k, w, ops, t, r, i);
    }
    assert GrantedAt(k, w, ops, t, r, n) <==> Accepts(Run(k, w, ops[..n]), ops[n], t, r);
  }

  lemma GrantedShorter(k: Settings, w: World, ops: seq<Op>, t: nat, r: string, i: nat)
    requires ops != [] && i < |ops| - 1
    ensures GrantedAt(k, w, ops, t, r, i) <==>
      !Revokes(Run(k, w, ops[..|ops| - 1]), ops[|ops| - 1], t, r) && GrantedAt(k, w, ops[..|ops| - 1], t, r, i)
  {
    hide Run, Accepts, Revokes;
    var n := |ops| - 1;
    Prefixes(ops);
    assert ops[..n][..i] == ops[..i];
    assert forall j :: i < j < n ==> ops[..n][..j] == ops[..j];
  }

  /** The autonomy layer lets a call through exactly when the owner accepted a promotion of that tool
      after its latest demotion, and accepted one for that exact routine that nothing since revoked. */
  lemma {:induction false} AutonomyIsEarned(k: Settings, w: World, ops: seq<Op>, tool: nat, routine: string)
    requires Fresh(w) && AlwaysLowers(k, w, ops)
    ensures AutonomyApproves(Run(k, w, ops), tool, routine) <==> Earned(k, w, ops, tool) && Granted(k, w, ops, tool, routine)
  {
    hide Run, Earned, Granted;
    ScoreHistory(k, w, ops);
    GrantHistory(k, w, ops, tool, routine);
    assert AutonomyApproves(Run(k, w, ops), tool, routine) <==> IsAuto(Run(k, w, ops), tool) && HasLive(Run(k, w, ops), tool, routine);
  }

  // ---------------------------------------------------------------- which settings keep that promise

  /** Settings drawn from the given ones only, whatever changes are made to them and when. */
  ghost predicate DrawnFrom(k: Settings, allowed: iset<Knobs>) {
    forall i :: k(i) in allowed
  }

  /** Every call the autonomy layer lets through, in any history under such settings, was earned. */
  ghost predicate AlwaysEarned(allowed: iset<Knobs>, w: World) {
    forall k: Settings, ops, tool, routine ::
      DrawnFrom(k, allowed) && AutonomyApproves(Run(k, w, ops), tool, routine) ==>
        Earned(k, w, ops, tool) && Granted(k, w, ops, tool, routine)
  }

  /** Settings under which a routine can be proposed at all. */
  predicate CanPropose(k: Knobs) {
    Limit(k) >= 1 && k.minSample <= Limit(k) && k.ratio <= 1.0
  }

  lemma RunSnoc(k: Settings, w: World, ops: seq<Op>, op: Op)
    ensures Run(k, w, ops + [op]) == Do(k(|ops|), Run(k, w, ops), op)
  {
    assert (ops + [op])[..|ops|] == ops;
  }

  /** Only the settings in force during the run matter. */
  lemma {:induction false} RunSameSettings(k: Settings, l: Settings, w: World, ops: seq<Op>)
    requires forall i: nat :: i < |ops| ==> k(i) == l(i)
    ensures Run(k, w, ops) == Run(l, w, ops)
    decreases |ops|
  {
    if ops != [] {
      RunSameSettings(k, l, w, ops[..|ops| - 1]);
    }
  }

  lemma WindowBound(k: Knobs, w: World, tool: nat, routine: string)
    requires Proposes(k, w, tool, routine)
    ensures CanPropose(k)
  {
    var recent := Recent(k, w, tool, routine);
    AtMostOne(CleanCount(recent) as real, |recent| as real);
  }

  lemma AtMostOne(a: real, b: real)
    requires 0.0 <= a <= b && b > 0.0
    ensures a / b <= 1.0
  {
    var q := a / b;
    assert q * b == a;
    assert q > 1.0 ==> (q - 1.0) * b > 0.0;
  }

  /** Without such settings, or without a tool, nothing is ever proposed or granted. */
  lemma {:induction false} NothingProposed(k: Settings, w: World, ops: seq<Op>)
    requires Fresh(w) && ((forall i :: !CanPropose(k(i))) || w.score == map[])
    ensures var v := Run(k, w, ops); v.proposals == [] && v.grants == [] && v.score.Keys == w.score.Keys
    decreases |ops|
  {
    if ops != [] {
      var n := |ops| - 1;
      NothingProposed(k, w, ops[..n]);
      NothingStep(k(n), Run(k, w, ops[..n]), ops[n]);
    }
  }

  lemma NothingStep(k: Knobs, v: World, op: Op)
    requires v.proposals == [] && v.grants == [] && (!CanPropose(k) || v.score == map[])
    ensures var u := Do(k, v, op); u.proposals == [] && u.grants == [] && u.score.Keys == v.score.Keys
  {
    hide Passes, HasEvidence, DemoteTools;
    match op
    case DemoteForTask(task) =>
      ToolsActedExact(v.outcomes, task);
      DemoteToolsExact(k, v, ToolsActed(v.outcomes, task));
    case Sweep(tool, routine) =>
      if Proposes(k, v, tool, routine) {
        WindowBound(k, v, tool, routine);
      }
    case _ =>
  }

  // ---------------------------------------------------------------- earning a routine, step by step

  function Success(tool: nat, routine: string, at: nat, matured: nat): Outcome {
    Outcome(tool, 0, true, at, matured, Some(routine))
  }

  function Successes(tool: nat, routine: string, at: nat, matured: nat, n: nat): seq<Outcome> {
    seq(n, i => Success(tool, routine, at, matured))
  }

  lemma MaturedSnoc(outcomes: seq<Outcome>, o: Outcome, tool: nat, routine: string, now: nat)
    ensures Matured(outcomes + [o], tool, routine, now) ==
      Matured(outcomes, tool, routine, now) + if IsMatured(o, tool, routine, now) then [o] else []
  {
    assert (outcomes + [o])[..|outcomes|] == outcomes;
  }

  lemma {:induction false} MaturedSuccesses(before: seq<Outcome>, tool: nat, routine: string, at: nat, matured: nat, now: nat, n: nat)
    requires matured <= now
    ensures Matured(before + Successes(tool, routine, at, matured, n), tool, routine, now)
      == Matured(before, tool, routine, now) + Successes(tool, routine, at, matured, n)
    decreases n
  {
    hide Matured;
    if n == 0 {
      assert before + Successes(tool, routine, at, matured, n) == before;
    } else {
      var fewer, one := Successes(tool, routine, at, matured, n - 1), [Success(tool, routine, at, matured)];
      MaturedSuccesses(before, tool, routine, at, matured, now, n - 1);
      MaturedSnoc(before + fewer, one[0], tool, routine, now);
      assert Successes(tool, routine, at, matured, n) == fewer + one;
      assert before + (fewer + one) == (before + fewer) + one;
      assert (Matured(before, tool, routine, now) + fewer) + one == Matured(before, tool, routine, now) + (fewer + one);
    }
  }

  lemma {:induction false} CleanSuccesses(tool: nat, routine: string, at: nat, matured: nat, n: nat)
    ensures CleanCount(Successes(tool, routine, at, matured, n)) == n
    decreases n
  {
    if n > 0 {
      CleanSuccesses(tool, routine, at, matured, n - 1);
      assert Successes(tool, routine, at, matured, n)[..n - 1] == Successes(tool, routine, at, matured, n - 1);
    }
  }

  /** A full window of matured successes makes a routine proposable, if nothing of it is open, live or
      declined. */
  lemma PracticeProposes(k: Knobs, v: World, before: seq<Outcome>, tool: nat, routine: string, at: nat)
    requires CanPropose(k) && tool in v.score
    requires v.outcomes == before + Successes(tool, routine, at, v.now, Limit(k))
    requires !HasLive(v, tool, routine) && !HasOpen(v, tool, routine) && LatestDeclined(v.proposals, tool, routine).None?
    ensures Proposes(k, v, tool, routine)
  {
    hide LatestDeclined, Matured, CleanCount, LatestClean, HasLive, HasOpen;
    var n := Limit(k);
    var practice := Successes(tool, routine, at, v.now, n);
    MaturedSuccesses(before, tool, routine, at, v.now, v.now, n);
    CleanSuccesses(tool, routine, at, v.now, n);
    var all := Matured(v.outcomes, tool, routine, v.now);
    assert all[|all| - n..] == practice;
    assert Window(all, n) == practice;
    Quotient(n as real, n as real, 1.0);
    LatestCleanExact(v.outcomes, tool, routine, v.now);
    assert IsMatured(v.outcomes[|v.outcomes| - 1], tool, routine, v.now) && v.outcomes[|v.outcomes| - 1].clean;
  }

  /** Successes recorded one after the other, each to mature after `wait`. */
  lemma {:induction false} Practice(k: Settings, w: World, ops: seq<Op>, tool: nat, routine: string, wait: nat, n: nat)
    returns (more: seq<Op>)
    ensures var v := Run(k, w, ops);
      Run(k, w, more) == v.(outcomes := v.outcomes + Successes(tool, routine, v.now, v.now + wait, n))
    decreases n
  {
    var v := Run(k, w, ops);
    var m := v.now + wait;
    if n == 0 {
      more := ops;
      assert v.outcomes + Successes(tool, routine, v.now, m, 0) == v.outcomes;
    } else {
      var some := Practice(k, w, ops, tool, routine, wait, n - 1);
      var op := RecordClean(tool, 0, routine, m);
      RunSnoc(k, w, some, op);
      more := some + [op];
      var fewer := Successes(tool, routine, v.now, m, n - 1);
      assert Successes(tool, routine, v.now, m, n) == fewer + [Success(tool, routine, v.now, m)];
      assert v.outcomes + (fewer + [Success(tool, routine, v.now, m)]) == (v.outcomes + fewer) + [Success(tool, routine, v.now, m)];
    }
  }

  /** Settings that never change. */
  function Always(k: Knobs): Settings {
    (_: nat) => k
  }

  /** Practice, the wait until it has matured, a sweep and the owner's acceptance. */
  lemma EarnRoutine(k: Knobs, w: World, ops: seq<Op>, tool: nat, routine: string, wait: nat) returns (more: seq<Op>)
    requires CanPropose(k)
    requires var v := Run(Always(k), w, ops);
      && tool in v.score && !HasLive(v, tool, routine) && !HasOpen(v, tool, routine)
      && LatestDeclined(v.proposals, tool, routine).None?
    ensures var v, u := Run(Always(k), w, ops), Run(Always(k), w, more);
      && u.score == v.score[tool := PromoteTo(v.score[tool])]
      && u.grants == v.grants + [Grant(tool, routine, true)]
      && u.proposals == v.proposals + [Proposal(tool, routine, Some(Resolution(true, v.now + wait)))]
  {
    hide Run, Proposes, LatestDeclined;
    var v := Run(Always(k), w, ops);
    var some := Practice(Always(k), w, ops, tool, routine, wait, Limit(k));
    RunSnoc(Always(k), w, some, Tick(wait));
    var waited := some + [Tick(wait)];
    PracticeProposes(k, Run(Always(k), w, waited), v.outcomes, tool, routine, v.now);
    RunSnoc(Always(k), w, waited, Sweep(tool, routine));
    var swept := waited + [Sweep(tool, routine)];
    RunSnoc(Always(k), w, swept, Respond(|v.proposals|, true));
    more := swept + [Respond(|v.proposals|, true)];
    var last := Proposal(tool, routine, Some(Resolution(true, v.now + wait)));
    assert (v.proposals + [Proposal(tool, routine, None)])[|v.proposals| := last] == v.proposals + [last];
  }

  /** Two routines of one tool, both earned from a fresh start. */
  lemma EarnTwo(k: Knobs, w: World, tool: nat, wait: nat) returns (ops: seq<Op>)
    requires Fresh(w) && CanPropose(k) && tool in w.score
    ensures var v := Run(Always(k), w, ops);
      && tool in v.score && v.score[tool] >= AUTO_THRESHOLD
      && v.grants == [Grant(tool, "a", true), Grant(tool, "b", true)]
  {
    hide Do;
    assert Run(Always(k), w, []) == w;
    assert LatestDeclined([], tool, "a").None?;
    var one := EarnRoutine(k, w, [], tool, "a", wait);
    var v := Run(Always(k), w, one);
    LatestDeclinedExact(v.proposals, tool, "b");
    ops := EarnRoutine(k, w, one, tool, "b", wait);
  }

  /** A bad outcome of one routine is a demotion of the tool, and the other routine keeps its grant. */
  lemma OtherGrantStays(k: Knobs, v: World, tool: nat, matured: nat)
    requires k.decrement <= 0.0 && tool in v.score && v.score[tool] >= AUTO_THRESHOLD
    requires v.grants == [Grant(tool, "a", true), Grant(tool, "b", true)]
    ensures var op := RecordBad(tool, 0, "a", matured);
      Demotes(v, op, tool) && !Promotes(v, op, tool) && AutonomyApproves(Do(k, v, op), tool, "b")
  {
    var op := RecordBad(tool, 0, "a", matured);
    assert DemotesWith(v, op, tool, "a");
    var u := Do(k, v, op);
    assert u.grants[1] == Grant(tool, "b", true);
    assert IsLive(u.grants[1], tool, "b");
  }

  /** The settings of a history that demotes with other ones than those its promotions came about with. */
  function Until(n: nat, first: Knobs, second: Knobs): Settings {
    (i: nat) => if i < n then first else second
  }

  /** If promotions can come about under some settings, and the decrement of others is not positive, then
      some history that changes from the ones to the others ends in an approval that was not earned,
      whatever the maturation period: the tool was demoted after every promotion of it. */
  lemma NoDecrementKeepsAutonomy(first: Knobs, last: Knobs, w: World, tool: nat, wait: nat) returns (n: nat, ops: seq<Op>)
    requires Fresh(w) && CanPropose(first) && tool in w.score && last.decrement <= 0.0
    ensures var k := Until(n, first, last);
      AutonomyApproves(Run(k, w, ops), tool, "b") && !Earned(k, w, ops, tool)
  {
    var earned := EarnTwo(first, w, tool, wait);
    n := |earned|;
    var k := Until(n, first, last);
    RunSameSettings(k, Always(first), w, earned);
    var matured := Run(k, w, earned).now + wait;
    var op := RecordBad(tool, 0, "a", matured);
    OtherGrantStays(last, Run(k, w, earned), tool, matured);
    RunSnoc(k, w, earned, op);
    ops := earned + [op];
    assert ops[..|ops| - 1] == earned;
    hide Run, Promotes, Demotes;
    ScoreHistoryStep(k, w, ops, tool);
  }

  /** For every fresh start and whatever settings a history may use, changing between them as it likes:
      each approval was earned exactly when all their decrements are positive, or when no promotion can
      come about at all. */
  lemma EarnedExact(allowed: iset<Knobs>, w: World)
    requires Fresh(w)
    ensures AlwaysEarned(allowed, w) <==>
      (forall k :: k in allowed ==> k.decrement > 0.0) || (forall k :: k in allowed ==> !CanPropose(k)) || w.score == map[]
  {
    hide Run, Earned, Granted, AutonomyApproves;
    if forall k :: k in allowed ==> k.decrement > 0.0 {
      forall k: Settings, ops, tool, routine | DrawnFrom(k, allowed) && AutonomyApproves(Run(k, w, ops), tool, routine)
        ensures Earned(k, w, ops, tool) && Granted(k, w, ops, tool, routine)
      {
        AutonomyIsEarned(k, w, ops, tool, routine);
      }
    } else if (forall k :: k in allowed ==> !CanPropose(k)) || w.score == map[] {
      forall k: Settings, ops, tool, routine | DrawnFrom(k, allowed)
        ensures !AutonomyApproves(Run(k, w, ops), tool, routine)
      {
        NothingProposed(k, w, ops);
        NoGrantNoApproval(Run(k, w, ops), tool, routine);
      }
    } else {
      var tool :| tool in w.score;
      var first :| first in allowed && CanPropose(first);
      var last :| last in allowed && last.decrement <= 0.0;
      var n, ops := NoDecrementKeepsAutonomy(first, last, w, tool, 0);
      assert DrawnFrom(Until(n, first, last), allowed);
    }
  }

  lemma NoGrantNoApproval(v: World, tool: nat, routine: string)
    requires v.grants == []
    ensures !AutonomyApproves(v, tool, routine)
  {
  }

  // ---------------------------------------------------------------- proposals

  /** A routine never has two of: an open proposal, a live grant. */
  ghost predicate Exclusive(w: World) {
    && (forall i, j :: 0 <= i < j < |w.proposals| && w.proposals[i].resolution.None? && w.proposals[j].resolution.None? ==>
          !(w.proposals[i].tool == w.proposals[j].tool && w.proposals[i].routine == w.proposals[j].routine))
    && (forall i, j :: 0 <= i < j < |w.grants| && w.grants[i].live && w.grants[j].live ==>
          !(w.grants[i].tool == w.grants[j].tool && w.grants[i].routine == w.grants[j].routine))
    && (forall i, j :: 0 <= i < |w.proposals| && 0 <= j < |w.grants| && w.proposals[i].resolution.None? && w.grants[j].live ==>
          !(w.proposals[i].tool == w.grants[j].tool && w.proposals[i].routine == w.grants[j].routine))
  }

  /** Nothing is added, nothing that was closed opens again. */
  ghost predicate Narrows(w: World, v: World) {
    && |v.grants| == |w.grants| && |v.proposals| == |w.proposals|
    && (forall i :: 0 <= i < |w.grants| ==>
          v.grants[i].tool == w.grants[i].tool && v.grants[i].routine == w.grants[i].routine && (v.grants[i].live ==> w.grants[i].live))
    && (forall i :: 0 <= i < |w.proposals| ==>
          && v.proposals[i].tool == w.proposals[i].tool && v.proposals[i].routine == w.proposals[i].routine
          && (w.proposals[i].resolution.Some? ==> v.proposals[i] == w.proposals[i]))
  }

  lemma NarrowsKeepsExclusive(w: World, v: World)
    requires Exclusive(w) && Narrows(w, v)
    ensures Exclusive(v)
  {
  }

  lemma OtherNarrows(k: Knobs, w: World, op: Op)
    requires !op.Respond? && !op.Sweep?
    ensures Narrows(w, Do(k, w, op))
  {
    if op.DemoteForTask? {
      ToolsActedExact(w.outcomes, op.task);
      DemoteToolsExact(k, w, ToolsActed(w.outcomes, op.task));
    }
  }

  lemma RespondKeepsExclusive(k: Knobs, w: World, i: nat, accept: bool)
    requires Exclusive(w)
    ensures Exclusive(Do(k, w, Respond(i, accept)))
  {
    var v := Do(k, w, Respond(i, accept));
    if Responded(w, i, accept).Some? && accept {
      var p := w.proposals[i];
      forall j | 0 <= j < |w.grants| && w.grants[j].live
        ensures !(w.grants[j].tool == p.tool && w.grants[j].routine == p.routine)
      {
        assert IsLive(w.grants[j], p.tool, p.routine) ==> HasLive(w, p.tool, p.routine);
      }
    }
  }

  lemma SweepKeepsExclusive(k: Knobs, w: World, tool: nat, routine: string)
    requires Exclusive(w)
    ensures Exclusive(Do(k, w, Sweep(tool, routine)))
  {
    if Proposes(k, w, tool, routine) {
      assert forall j :: 0 <= j < |w.grants| && IsLive(w.grants[j], tool, routine) ==> HasLive(w, tool, routine);
      assert forall j :: 0 <= j < |w.proposals| && IsOpen(w.proposals[j], tool, routine) ==> HasOpen(w, tool, routine);
    }
  }

  /** In every reachable state each routine of each tool has at most one open proposal or live grant. */
  lemma {:induction false} RunKeepsExclusive(k: Settings, w: World, ops: seq<Op>)
    requires Exclusive(w)
    ensures Exclusive(Run(k, w, ops))
    decreases |ops|
  {
    if ops != [] {
      var n := |ops| - 1;
      RunKeepsExclusive(k, w, ops[..n]);
      var v := Run(k, w, ops[..n]);
      match ops[n]
      case Respond(i, accept) => RespondKeepsExclusive(k(n), v, i, accept);
      case Sweep(tool, routine) => SweepKeepsExclusive(k(n), v, tool, routine);
      case _ =>
        OtherNarrows(k(n), v, ops[n]);
        NarrowsKeepsExclusive(v, Do(k(n), v, ops[n]));
    }
  }

  /** In a reachable state accepting an open proposal of a known tool always succeeds: the unique index
      on live grants is never hit. */
  lemma AcceptNeverConflicts(k: Settings, w: World, ops: seq<Op>, i: nat)
    requires Exclusive(w)
    requires var v := Run(k, w, ops); i < |v.proposals| && v.proposals[i].resolution.None? && v.proposals[i].tool in v.score
    ensures Responded(Run(k, w, ops), i, true).Some?
  {
    RunKeepsExclusive(k, w, ops);
  }

  /** A resolved proposal stays as it was resolved. */
  lemma ResolutionsStay(k: Knobs, w: World, op: Op)
    ensures |w.proposals| <= |Do(k, w, op).proposals|
    ensures forall i :: 0 <= i < |w.proposals| ==>
      var from, to := w.proposals[i], Do(k, w, op).proposals[i];
      to.tool == from.tool && to.routine == from.routine && (from.resolution.Some? ==> to == from)
  {
    if !op.Respond? && !op.Sweep? {
      OtherNarrows(k, w, op);
    }
  }

  lemma {:induction false} RunResolutionsStay(k: Settings, w: World, ops: seq<Op>)
    ensures |w.proposals| <= |Run(k, w, ops).proposals|
    ensures forall i :: 0 <= i < |w.proposals| && w.proposals[i].resolution.Some? ==> Run(k, w, ops).proposals[i] == w.proposals[i]
    decreases |ops|
  {
    if ops != [] {
      RunResolutionsStay(k, w, ops[..|ops| - 1]);
      ResolutionsStay(k(|ops| - 1), Run(k, w, ops[..|ops| - 1]), ops[|ops| - 1]);
    }
  }

  /** A demotion leaves no open proposal of the tool. */
  lemma DemotionWithdraws(k: Knobs, w: World, op: Op, tool: nat)
    requires Demotes(w, op, tool)
    ensures var v := Do(k, w, op);
      && |v.proposals| == |w.proposals|
      && forall i :: 0 <= i < |v.proposals| && v.proposals[i].tool == tool ==> v.proposals[i].resolution.Some?
  {
    if op.DemoteForTask? {
      ToolsActedExact(w.outcomes, op.task);
      DemoteToolsExact(k, w, ToolsActed(w.outcomes, op.task));
    }
  }

  /** A proposal withdrawn by a demotion can never be accepted: whatever happens after, accepting it
      changes nothing. */
  lemma {:induction false} WithdrawnStaysWithdrawn(k: Knobs, w: World, op: Op, tool: nat, l: Settings, later: seq<Op>, i: nat)
    requires Demotes(w, op, tool) && i < |w.proposals| && w.proposals[i].tool == tool
    ensures var withdrawn, v := Do(k, w, op), Run(l, Do(k, w, op), later);
      && i < |withdrawn.proposals| && i < |v.proposals|
      && v.proposals[i] == withdrawn.proposals[i] && v.proposals[i].resolution.Some?
      && forall m :: Do(m, v, Respond(i, true)) == v
  {
    DemotionWithdraws(k, w, op, tool);
    ResolutionsStay(k, w, op);
    RunResolutionsStay(l, Do(k, w, op), later);
  }

  /** Cooldown: once a promotion of a routine was declined or withdrawn at T, a new proposal for it needs
      a clean outcome recorded at or after T that has matured, however much happens in between. */
  lemma {:induction false} Cooldown(k: Settings, w: World, later: seq<Op>, i: nat, tool: nat, routine: string)
    requires i < |w.proposals| && IsDeclined(w.proposals[i], tool, routine)
    requires Proposes(k(|later|), Run(k, w, later), tool, routine)
    ensures var v := Run(k, w, later);
      exists j :: 0 <= j < |v.outcomes| && IsMatured(v.outcomes[j], tool, routine, v.now) && v.outcomes[j].clean
        && v.outcomes[j].at >= w.proposals[i].resolution.value.at
  {
    var v := Run(k, w, later);
    RunResolutionsStay(k, w, later);
    LatestDeclinedExact(v.proposals, tool, routine);
    LatestCleanExact(v.outcomes, tool, routine, v.now);
  }

  /** Outcome j is a matured success at least as late as every decline of the routine. */
  ghost predicate OutlastsDeclines(w: World, tool: nat, routine: string, j: nat) {
    && j < |w.outcomes| && w.outcomes[j].tool == tool && w.outcomes[j].routine == Some(routine)
    && w.outcomes[j].matured <= w.now && w.outcomes[j].clean
    && forall p :: p in w.proposals && p.tool == tool && p.routine == routine && p.resolution.Some? && !p.resolution.value.accepted ==>
         p.resolution.value.at <= w.outcomes[j].at
  }

  lemma CooldownExact(w: World, tool: nat, routine: string)
    ensures var clean, declined := LatestClean(w.outcomes, tool, routine, w.now), LatestDeclined(w.proposals, tool, routine);
      clean.Some? && (declined.Some? ==> declined.value <= clean.value) <==> exists j :: OutlastsDeclines(w, tool, routine, j)
  {
    LatestDeclinedExact(w.proposals, tool, routine);
    LatestCleanExact(w.outcomes, tool, routine, w.now);
    var clean, declined := LatestClean(w.outcomes, tool, routine, w.now), LatestDeclined(w.proposals, tool, routine);
    if clean.Some? && (declined.Some? ==> declined.value <= clean.value) {
      var j: nat :| j < |w.outcomes| && IsMatured(w.outcomes[j], tool, routine, w.now) && w.outcomes[j].clean && w.outcomes[j].at == clean.value;
      assert forall p :: IsDeclined(p, tool, routine) && p in w.proposals ==> p.resolution.value.at <= w.outcomes[j].at;
      assert OutlastsDeclines(w, tool, routine, j);
    }
    if j: nat :| OutlastsDeclines(w, tool, routine, j) {
      assert IsMatured(w.outcomes[j], tool, routine, w.now);
      assert forall i :: 0 <= i < |w.proposals| && IsDeclined(w.proposals[i], tool, routine) ==> w.proposals[i] in w.proposals;
    }
  }

  /** The routine has a live grant or an open proposal. */
  ghost predicate Taken(w: World, tool: nat, routine: string) {
    || (exists g :: g in w.grants && g.tool == tool && g.routine == routine && g.live)
    || (exists p :: p in w.proposals && p.tool == tool && p.routine == routine && p.resolution.None?)
  }

  lemma LooksExact(w: World, tool: nat, routine: string)
    ensures LooksAt(w, tool, routine) <==> !Taken(w, tool, routine)
  {
    if HasLive(w, tool, routine) {
      var i :| 0 <= i < |w.grants| && IsLive(w.grants[i], tool, routine);
      assert w.grants[i] in w.grants;
    }
    if HasOpen(w, tool, routine) {
      var i :| 0 <= i < |w.proposals| && IsOpen(w.proposals[i], tool, routine);
      assert w.proposals[i] in w.proposals;
    }
    if Taken(w, tool, routine) {
      if g :| g in w.grants && g.tool == tool && g.routine == routine && g.live {
        assert IsLive(g, tool, routine);
      } else {
        var p :| p in w.proposals && p.tool == tool && p.routine == routine && p.resolution.None?;
        assert IsOpen(p, tool, routine);
      }
    }
  }

  /** How many of the last matured outcomes count, and how many of those are clean. */
  ghost function SampleSize(k: Knobs, w: World, tool: nat, routine: string): nat
    requires Limit(k) >= 0
  {
    |LastMatured(w.outcomes, tool, routine, w.now, Limit(k))|
  }

  ghost function CleanSize(k: Knobs, w: World, tool: nat, routine: string): nat
    requires Limit(k) >= 0
  {
    |LastClean(w.outcomes, tool, routine, w.now, Limit(k))|
  }

  /** And only that keeps it back: the sweep proposes exactly when nothing of the routine is open or
      live, its last matured outcomes are enough and enough of them clean, and a success outlasts every
      decline. */
  lemma ProposesExactly(k: Knobs, w: World, tool: nat, routine: string)
    ensures Proposes(k, w, tool, routine) <==>
      && tool in w.score && !Taken(w, tool, routine)
      && Limit(k) >= 0
      && SampleSize(k, w, tool, routine) >= k.minSample && SampleSize(k, w, tool, routine) > 0
      && CleanSize(k, w, tool, routine) as real >= k.ratio * SampleSize(k, w, tool, routine) as real
      && exists j :: OutlastsDeclines(w, tool, routine, j)
  {
    hide Window, Matured, CleanCount, LatestClean, LatestDeclined, OutlastsDeclines, LooksAt, Taken, LastMatured, LastClean;
    CooldownExact(w, tool, routine);
    LooksExact(w, tool, routine);
    if Limit(k) >= 0 {
      WindowExact(w.outcomes, tool, routine, w.now, Limit(k));
      var recent := Recent(k, w, tool, routine);
      if |recent| > 0 {
        Quotient(CleanCount(recent) as real, |recent| as real, k.ratio);
      }
    }
  }

  /** The limit of the query is the setting wherever that fits 32 bits, and congruent to it elsewhere. */
  lemma LimitExact(k: Knobs)
    ensures -0x8000_0000 <= Limit(k) < 0x8000_0000 && (Limit(k) - k.windowN) % 0x1_0000_0000 == 0
    ensures -0x8000_0000 <= k.windowN < 0x8000_0000 ==> Limit(k) == k.windowN
  {
    var q := (k.windowN + 0x8000_0000) / 0x1_0000_0000;
    assert Limit(k) - k.windowN == -q * 0x1_0000_0000;
  }

  /** Too few outcomes, or too few clean ones among them: the sweep of the routine adds no proposal. */
  lemma SweepNeedsCleanWindow(k: Knobs, w: World, tool: nat, routine: string)
    requires Limit(k) >= 0
    requires SampleSize(k, w, tool, routine) < k.minSample
      || CleanSize(k, w, tool, routine) as real < k.ratio * SampleSize(k, w, tool, routine) as real
    ensures Do(k, w, Sweep(tool, routine)) == w
  {
    hide Proposes, SampleSize, CleanSize, Taken, OutlastsDeclines;
    ProposesExactly(k, w, tool, routine);
  }

  lemma {:induction false} MaturedNotEmpty(outcomes: seq<Outcome>, tool: nat, routine: string, now: nat)
    ensures Matured(outcomes, tool, routine, now) == [] <==>
      forall i :: 0 <= i < |outcomes| ==> !IsMatured(outcomes[i], tool, routine, now)
    decreases |outcomes|
  {
    if outcomes != [] {
      var n := |outcomes| - 1;
      MaturedNotEmpty(outcomes[..n], tool, routine, now);
      assert outcomes == outcomes[..n] + [outcomes[n]];
    }
  }

  /** Sweeping a routine ends the sweep with an error exactly when its outcomes are looked at with a limit
      below zero, or it passes every check and its tool is missing or the limit is zero, which leaves no
      evidence to write down. */
  lemma BreaksExactly(k: Knobs, w: World, tool: nat, routine: string)
    ensures Breaks(k, w, tool, routine) <==>
      LooksAt(w, tool, routine) && (Limit(k) < 0 || (Passes(k, w, tool, routine) && (tool !in w.score || Limit(k) == 0)))
  {
    LatestCleanExact(w.outcomes, tool, routine, w.now);
    MaturedNotEmpty(w.outcomes, tool, routine, w.now);
  }

  lemma Quotient(a: real, b: real, r: real)
    requires b > 0.0
    ensures a / b >= r <==> a >= r * b
  {
    assert (a / b) * b == a;
    if a / b >= r {
      assert (a / b - r) * b >= 0.0;
    } else {
      assert (r - a / b) * b > 0.0;
    }
  }

  // ---------------------------------------------------------------- the sweep

  function SweepOps(candidates: seq<(nat, string)>): seq<Op> {
    seq(|candidates|, i requires 0 <= i < |candidates| => Sweep(candidates[i].0, candidates[i].1))
  }

  lemma SweptNone(k: Settings, w: World, candidates: seq<(nat, string)>)
    ensures Run(k, w, SweepOps(candidates[..0])) == w
  {
  }

  lemma SweptSnoc(k: Settings, w: World, candidates: seq<(nat, string)>, n: nat)
    requires n < |candidates|
    ensures Run(k, w, SweepOps(candidates[..n + 1])) ==
      Do(k(n), Run(k, w, SweepOps(candidates[..n])), Sweep(candidates[n].0, candidates[n].1))
  {
    hide Do;
    assert SweepOps(candidates[..n + 1]) == SweepOps(candidates[..n]) + [Sweep(candidates[n].0, candidates[n].1)];
    RunSnoc(k, w, SweepOps(candidates[..n]), Sweep(candidates[n].0, candidates[n].1));
  }

  /** Sweeping one routine changes nothing but the list of open proposals, and under no settings and for no
      routine does it make a proposal due that was not. */
  lemma SweepStays(k: Knobs, v: World, tool: nat, routine: string, l: Knobs, t: nat, r: string)
    ensures var u := Do(k, v, Sweep(tool, routine));
      && u.outcomes == v.outcomes && u.now == v.now
      && (Proposes(l, u, t, r) ==> Proposes(l, v, t, r))
      && !Proposes(k, u, tool, routine)
  {
    hide Matured, CleanCount, LatestClean;
    var u := Do(k, v, Sweep(tool, routine));
    if Proposes(k, v, tool, routine) {
      assert u.proposals[..|v.proposals|] == v.proposals;
      assert IsOpen(u.proposals[|v.proposals|], tool, routine);
      assert forall i :: 0 <= i < |v.proposals| && IsOpen(v.proposals[i], t, r) ==> IsOpen(u.proposals[i], t, r);
    }
  }

  lemma {:induction false} SweptRoutines(k: Settings, w: World, candidates: seq<(nat, string)>)
    ensures var v := Run(k, w, SweepOps(candidates));
      && v.outcomes == w.outcomes && v.now == w.now
      && forall i: nat :: i < |candidates| ==> !Proposes(k(i), v, candidates[i].0, candidates[i].1)
    decreases |candidates|
  {
    hide Proposes, Do;
    if candidates != [] {
      var n := |candidates| - 1;
      SweptRoutines(k, w, candidates[..n]);
      assert SweepOps(candidates)[..n] == SweepOps(candidates[..n]);
      var v := Run(k, w, SweepOps(candidates[..n]));
      SweepStays(k(n), v, candidates[n].0, candidates[n].1, k(n), 0, "");
      forall i: nat | i < n
        ensures !Proposes(k(i), Run(k, w, SweepOps(candidates)), candidates[i].0, candidates[i].1)
      {
        assert candidates[..n][i] == candidates[i];
        SweepStays(k(n), v, candidates[n].0, candidates[n].1, k(i), candidates[i].0, candidates[i].1);
      }
    }
  }

  /** Under the settings its sweep read, or under all settings if it was no candidate, no promotion of the
      routine is due. */
  ghost predicate NothingDue(k: Settings, v: World, candidates: seq<(nat, string)>) {
    && (forall i: nat :: i < |candidates| ==> !Proposes(k(i), v, candidates[i].0, candidates[i].1))
    && (forall l: Knobs, t: nat, r: string :: (t, r) !in candidates ==> !Proposes(l, v, t, r))
  }

  /** A sweep that gets through its candidates leaves no promotion due, of any routine. */
  lemma SweepIsComplete(k: Settings, w: World)
    ensures var candidates := Candidates(w.outcomes, w.now);
      NothingDue(k, Run(k, w, SweepOps(candidates)), candidates)
  {
    hide Run, Matured, Candidates;
    var candidates := Candidates(w.outcomes, w.now);
    var v := Run(k, w, SweepOps(candidates));
    SweptRoutines(k, w, candidates);
    forall l: Knobs, t: nat, r: string | (t, r) !in candidates
      ensures !Proposes(l, v, t, r)
    {
      NoCandidate(w.outcomes, w.now, t, r);
    }
  }

  lemma NoCandidate(outcomes: seq<Outcome>, now: nat, tool: nat, routine: string)
    requires (tool, routine) !in Candidates(outcomes, now)
    ensures Matured(outcomes, tool, routine, now) == []
  {
    CandidatesExact(outcomes, now);
    MaturedNotEmpty(outcomes, tool, routine, now);
    assert forall i :: 0 <= i < |outcomes| && IsMatured(outcomes[i], tool, routine, now) ==> (tool, routine) in Candidates(outcomes, now);
  }
}
