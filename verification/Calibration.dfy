/** Earned autonomy: trust scores, per-routine grants, promotion proposals, demotions. */
module Calibration {
  import opened Lifecycle

  const BASELINE: real := 0.5
  const AUTO_THRESHOLD: real := 0.8

  datatype Level = Disabled | ExecuteGated | ExecuteAuto

  function Band(score: real): Level {
    if score <= 0.0 then Disabled else if score >= AUTO_THRESHOLD then ExecuteAuto else ExecuteGated
  }

  function PromoteTo(current: real): real {
    if current > AUTO_THRESHOLD then current else AUTO_THRESHOLD
  }

  function Demote(current: real, decrement: real): real {
    if current - decrement < BASELINE then BASELINE else current - decrement
  }

  /** One demotion leaves the auto band exactly when the score was within one decrement of 0.8, and it
      lifts a score exactly when that was below the baseline of 0.5 or the decrement is negative. A
      promotion is the least lift into the band. */
  lemma DemotionExact(score: real, decrement: real)
    ensures Band(Demote(score, decrement)) != ExecuteAuto <==> score - decrement < 0.8
    ensures Demote(score, decrement) > score <==> score < 0.5 || decrement < 0.0
    ensures Band(PromoteTo(score)) == ExecuteAuto && PromoteTo(score) >= score
    ensures forall x: real :: x >= score && Band(x) == ExecuteAuto ==> PromoteTo(score) <= x
    ensures Band(score) == Disabled <==> score <= 0.0
  {
  }

  function Demoted(score: real, decrement: real, n: nat): real {
    if n == 0 then score else Demote(Demoted(score, decrement, n - 1), decrement)
  }

  /** Any number of demotions takes off as many decrements, down to the baseline and no further. */
  lemma {:induction false} DemotionsAddUp(score: real, decrement: real, n: nat)
    requires score >= 0.5 && decrement >= 0.0
    ensures var left := score - (n as real) * decrement;
      Demoted(score, decrement, n) == if left > 0.5 then left else 0.5
  {
    if n > 0 {
      DemotionsAddUp(score, decrement, n - 1);
      assert (n as real) * decrement == ((n - 1) as real) * decrement + decrement;
    }
  }

  datatype Knobs = Knobs(windowN: int, minSample: int, ratio: real, decrement: real)

  /** The settings in force at each operation of a history: they are read live, and may change between
      any two operations. */
  type Settings = nat -> Knobs

  /** The window size as the query gets it, narrowed to 32 bits. */
  function Limit(k: Knobs): int {
    (k.windowN + 0x8000_0000) % 0x1_0000_0000 - 0x8000_0000
  }

  datatype Outcome = Outcome(tool: nat, task: nat, clean: bool, at: nat, matured: nat, routine: Option<string>)

  datatype Resolution = Resolution(accepted: bool, at: nat)

  datatype Proposal = Proposal(tool: nat, routine: string, resolution: Option<Resolution>)

  datatype Grant = Grant(tool: nat, routine: string, live: bool)

  datatype World = World(now: nat, score: map<nat, real>, outcomes: seq<Outcome>, proposals: seq<Proposal>, grants: seq<Grant>)

  // ---------------------------------------------------------------- queries

  predicate IsOpen(p: Proposal, tool: nat, routine: string) {
    p.tool == tool && p.routine == routine && p.resolution.None?
  }

  predicate IsLive(g: Grant, tool: nat, routine: string) {
    g.tool == tool && g.routine == routine && g.live
  }

  predicate HasOpen(w: World, tool: nat, routine: string) {
    exists i :: 0 <= i < |w.proposals| && IsOpen(w.proposals[i], tool, routine)
  }

  predicate HasLive(w: World, tool: nat, routine: string) {
    exists i :: 0 <= i < |w.grants| && IsLive(w.grants[i], tool, routine)
  }

  predicate IsMatured(o: Outcome, tool: nat, routine: string, now: nat) {
    o.tool == tool && o.routine == Some(routine) && o.matured <= now
  }

  /** Matured outcomes of a routine, oldest first. */
  function Matured(outcomes: seq<Outcome>, tool: nat, routine: string, now: nat): seq<Outcome>
    decreases |outcomes|
  {
    if outcomes == [] then []
    else
      var last := outcomes[|outcomes| - 1];
      Matured(outcomes[..|outcomes| - 1], tool, routine, now) + if IsMatured(last, tool, routine, now) then [last] else []
  }

  function Window(s: seq<Outcome>, n: nat): seq<Outcome> {
    if |s| <= n then s else s[|s| - n..]
  }

  function CleanCount(s: seq<Outcome>): nat
    ensures CleanCount(s) <= |s|
    decreases |s|
  {
    if s == [] then 0 else CleanCount(s[..|s| - 1]) + if s[|s| - 1].clean then 1 else 0
  }

  /** The count is the number of clean outcomes. */
  lemma {:induction false} CleanCountExact(s: seq<Outcome>)
    ensures CleanCount(s) == |set i | 0 <= i < |s| && s[i].clean|
    decreases |s|
  {
    if s != [] {
      var n := |s| - 1;
      CleanCountExact(s[..n]);
      var before := set i | 0 <= i < n && s[..n][i].clean;
      var all := set i | 0 <= i < |s| && s[i].clean;
      assert all == before + if s[n].clean then {n} else {};
    }
  }

  /** How many matured outcomes of the routine are newer than the one at position i. */
  ghost function Newer(outcomes: seq<Outcome>, tool: nat, routine: string, now: nat, i: int): set<int> {
    set j | 0 <= j < |outcomes| && i < j
      && outcomes[j].tool == tool && outcomes[j].routine == Some(routine) && outcomes[j].matured <= now
  }

  /** The positions of the last n matured outcomes of the routine. */
  ghost function LastMatured(outcomes: seq<Outcome>, tool: nat, routine: string, now: nat, n: nat): set<int> {
    set i | 0 <= i < |outcomes|
      && outcomes[i].tool == tool && outcomes[i].routine == Some(routine) && outcomes[i].matured <= now
      && |Newer(outcomes, tool, routine, now, i)| < n
  }

  /** Those of them that are clean. */
  ghost function LastClean(outcomes: seq<Outcome>, tool: nat, routine: string, now: nat, n: nat): set<int> {
    set i | i in LastMatured(outcomes, tool, routine, now, n) && outcomes[i].clean
  }

  lemma WindowSnoc(s: seq<Outcome>, o: Outcome, n: nat)
    ensures Window(s + [o], n) == if n == 0 then [] else Window(s, n - 1) + [o]
  {
  }

  lemma CleanSnoc(s: seq<Outcome>, o: Outcome)
    ensures CleanCount(s + [o]) == CleanCount(s) + if o.clean then 1 else 0
  {
    assert (s + [o])[..|s|] == s;
  }

  lemma NewerSnoc(outcomes: seq<Outcome>, o: Outcome, tool: nat, routine: string, now: nat, i: int)
    requires i < |outcomes|
    ensures Newer(outcomes + [o], tool, routine, now, i)
      == Newer(outcomes, tool, routine, now, i) + if IsMatured(o, tool, routine, now) then {|outcomes|} else {}
  {
  }

  lemma LastMaturedSnoc(outcomes: seq<Outcome>, o: Outcome, tool: nat, routine: string, now: nat, n: nat)
    ensures LastMatured(outcomes + [o], tool, routine, now, n) == (
      if !IsMatured(o, tool, routine, now) then LastMatured(outcomes, tool, routine, now, n)
      else if n == 0 then {}
      else LastMatured(outcomes, tool, routine, now, n - 1) + {|outcomes|})
  {
    forall i | i < |outcomes|
      ensures |Newer(outcomes + [o], tool, routine, now, i)|
        == |Newer(outcomes, tool, routine, now, i)| + if IsMatured(o, tool, routine, now) then 1 else 0
    {
      NewerSnoc(outcomes, o, tool, routine, now, i);
    }
    assert Newer(outcomes + [o], tool, routine, now, |outcomes|) == {};
  }

  lemma LastCleanSnoc(outcomes: seq<Outcome>, o: Outcome, tool: nat, routine: string, now: nat, n: nat)
    ensures LastClean(outcomes + [o], tool, routine, now, n) == (
      if !IsMatured(o, tool, routine, now) then LastClean(outcomes, tool, routine, now, n)
      else if n == 0 then {}
      else LastClean(outcomes, tool, routine, now, n - 1) + if o.clean then {|outcomes|} else {})
  {
    LastMaturedSnoc(outcomes, o, tool, routine, now, n);
  }

  /** The window is made of the last matured outcomes, and its clean count of the clean ones among them. */
  lemma {:induction false} WindowExact(outcomes: seq<Outcome>, tool: nat, routine: string, now: nat, n: nat)
    ensures var recent := Window(Matured(outcomes, tool, routine, now), n);
      && |recent| == |LastMatured(outcomes, tool, routine, now, n)|
      && CleanCount(recent) == |LastClean(outcomes, tool, routine, now, n)|
    decreases |outcomes|
  {
    hide LastMatured, LastClean, Window, CleanCount;
    if outcomes == [] {
      NoneOfNothing(tool, routine, now, n);
    } else {
      var init, last := outcomes[..|outcomes| - 1], outcomes[|outcomes| - 1];
      assert outcomes == init + [last];
      LastMaturedSnoc(init, last, tool, routine, now, n);
      LastCleanSnoc(init, last, tool, routine, now, n);
      var before := Matured(init, tool, routine, now);
      if !IsMatured(last, tool, routine, now) {
        WindowExact(init, tool, routine, now, n);
        assert before + [] == before;
      } else {
        WindowSnoc(before, last, n);
        if n == 0 {
          NoneOfNothing(tool, routine, now, n);
        } else {
          WindowExact(init, tool, routine, now, n - 1);
          PositionsBelow(init, tool, routine, now, n - 1);
          CleanSnoc(Window(before, n - 1), last);
        }
      }
    }
  }

  lemma NoneOfNothing(tool: nat, routine: string, now: nat, n: nat)
    ensures LastMatured([], tool, routine, now, n) == {} && LastClean([], tool, routine, now, n) == {}
    ensures Window([], n) == [] && CleanCount([]) == 0
  {
  }

  lemma PositionsBelow(outcomes: seq<Outcome>, tool: nat, routine: string, now: nat, n: nat)
    ensures |outcomes| !in LastMatured(outcomes, tool, routine, now, n) && |outcomes| !in LastClean(outcomes, tool, routine, now, n)
  {
  }

  /** When the routine last succeeded, among matured outcomes. */
  function LatestClean(outcomes: seq<Outcome>, tool: nat, routine: string, now: nat): Option<nat>
    decreases |outcomes|
  {
    if outcomes == [] then None
    else
      var last := outcomes[|outcomes| - 1];
      var init := LatestClean(outcomes[..|outcomes| - 1], tool, routine, now);
      if IsMatured(last, tool, routine, now) && last.clean && (init.None? || init.value <= last.at) then Some(last.at) else init
  }

  lemma {:induction false} LatestCleanExact(outcomes: seq<Outcome>, tool: nat, routine: string, now: nat)
    ensures var at := LatestClean(outcomes, tool, routine, now);
      && (at.Some? <==> exists i :: 0 <= i < |outcomes| && IsMatured(outcomes[i], tool, routine, now) && outcomes[i].clean)
      && (at.Some? ==> exists i :: 0 <= i < |outcomes| && IsMatured(outcomes[i], tool, routine, now) && outcomes[i].clean && outcomes[i].at == at.value)
      && (at.Some? ==> forall i :: 0 <= i < |outcomes| && IsMatured(outcomes[i], tool, routine, now) && outcomes[i].clean ==> outcomes[i].at <= at.value)
    decreases |outcomes|
  {
    if outcomes != [] {
      var n := |outcomes| - 1;
      LatestCleanExact(outcomes[..n], tool, routine, now);
      assert outcomes == outcomes[..n] + [outcomes[n]];
    }
  }

  predicate IsDeclined(p: Proposal, tool: nat, routine: string) {
    p.tool == tool && p.routine == routine && p.resolution.Some? && !p.resolution.value.accepted
  }

  /** When the routine's promotion was last declined or withdrawn. */
  function LatestDeclined(proposals: seq<Proposal>, tool: nat, routine: string): Option<nat>
    decreases |proposals|
  {
    if proposals == [] then None
    else
      var last := proposals[|proposals| - 1];
      var init := LatestDeclined(proposals[..|proposals| - 1], tool, routine);
      if IsDeclined(last, tool, routine) && (init.None? || init.value <= last.resolution.value.at) then Some(last.resolution.value.at)
      else init
  }

  lemma {:induction false} LatestDeclinedExact(proposals: seq<Proposal>, tool: nat, routine: string)
    ensures var at := LatestDeclined(proposals, tool, routine);
      && (at.Some? ==> exists i :: 0 <= i < |proposals| && IsDeclined(proposals[i], tool, routine) && proposals[i].resolution.value.at == at.value)
      && forall i :: 0 <= i < |proposals| && IsDeclined(proposals[i], tool, routine) ==>
           at.Some? && proposals[i].resolution.value.at <= at.value
    decreases |proposals|
  {
    if proposals != [] {
      var n := |proposals| - 1;
      LatestDeclinedExact(proposals[..n], tool, routine);
      assert proposals == proposals[..n] + [proposals[n]];
    }
  }

  /** The routine of the latest outcome a tool recorded under a task. */
  function LatestRoutine(outcomes: seq<Outcome>, tool: nat, task: nat): Option<string>
    decreases |outcomes|
  {
    if outcomes == [] then None
    else
      var last := outcomes[|outcomes| - 1];
      if last.tool == tool && last.task == task then last.routine else LatestRoutine(outcomes[..|outcomes| - 1], tool, task)
  }

  /** The tools that acted under a task, each once. */
  function ToolsActed(outcomes: seq<Outcome>, task: nat): (tools: seq<nat>)
    decreases |outcomes|
  {
    if outcomes == [] then []
    else
      var init, last := ToolsActed(outcomes[..|outcomes| - 1], task), outcomes[|outcomes| - 1];
      if last.task == task && last.tool !in init then init + [last.tool] else init
  }

  // ---------------------------------------------------------------- transactions

  function RevokeGrant(g: Grant, tool: nat, routine: string): Grant {
    if g.tool == tool && (routine == "" || g.routine == routine) then g.(live := false) else g
  }

  function Withdraw(p: Proposal, tool: nat, now: nat): Proposal {
    if p.tool == tool && p.resolution.None? then p.(resolution := Some(Resolution(false, now))) else p
  }

  /** Slide the score, revoke the routine's grant (every grant for the empty routine), withdraw every
      open proposal of the tool. None when the tool does not exist. */
  function DemoteTool(k: Knobs, w: World, tool: nat, routine: string): Option<World> {
    if tool !in w.score then None
    else Some(w.(
      score := w.score[tool := Demote(w.score[tool], k.decrement)],
      grants := seq(|w.grants|, i requires 0 <= i < |w.grants| => RevokeGrant(w.grants[i], tool, routine)),
      proposals := seq(|w.proposals|, i requires 0 <= i < |w.proposals| => Withdraw(w.proposals[i], tool, w.now))))
  }

  function DemoteTools(k: Knobs, w: World, tools: seq<nat>): Option<World>
    decreases |tools|
  {
    if tools == [] then Some(w)
    else
      match DemoteTools(k, w, tools[..|tools| - 1])
      case None => None
      case Some(v) => DemoteTool(k, v, tools[|tools| - 1], "")
  }

  function Record(w: World, o: Outcome): World {
    w.(outcomes := w.outcomes + [o])
  }

  /** The matured outcomes that count. */
  function Recent(k: Knobs, w: World, tool: nat, routine: string): seq<Outcome>
    requires Limit(k) >= 0
  {
    Window(Matured(w.outcomes, tool, routine, w.now), Limit(k))
  }

  /** Nothing of the routine is granted or under consideration, so its outcomes are looked at. */
  predicate LooksAt(w: World, tool: nat, routine: string) {
    !HasLive(w, tool, routine) && !HasOpen(w, tool, routine)
  }

  /** The checks a routine has to pass, up to the look at the tool. The ratio of an empty window is no
      number, and no number is not below the limit. */
  predicate Passes(k: Knobs, w: World, tool: nat, routine: string)
    requires Limit(k) >= 0
  {
    var recent := Recent(k, w, tool, routine);
    var clean := LatestClean(w.outcomes, tool, routine, w.now);
    var declined := LatestDeclined(w.proposals, tool, routine);
    && LooksAt(w, tool, routine)
    && |recent| >= k.minSample
    && (|recent| > 0 ==> CleanCount(recent) as real / |recent| as real >= k.ratio)
    && clean.Some?
    && (declined.Some? ==> declined.value <= clean.value)
  }

  /** Evaluating a routine: not eligible, eligible, or an error: the query refuses a negative limit, and
      the tool may not exist. */
  datatype Verdict = NotEligible | Eligible | BadLimit | ToolMissing

  function Evaluate(k: Knobs, w: World, tool: nat, routine: string): Verdict {
    if !LooksAt(w, tool, routine) then NotEligible
    else if Limit(k) < 0 then BadLimit
    else if !Passes(k, w, tool, routine) then NotEligible
    else if tool in w.score then Eligible
    else ToolMissing
  }

  /** The evidence of an empty window cannot be written down. */
  predicate HasEvidence(k: Knobs, w: World, tool: nat, routine: string)
    requires Limit(k) >= 0
  {
    Recent(k, w, tool, routine) != []
  }

  /** Whether a promotion of the routine is proposed now. */
  predicate Proposes(k: Knobs, w: World, tool: nat, routine: string) {
    Evaluate(k, w, tool, routine) == Eligible && HasEvidence(k, w, tool, routine)
  }

  /** Whether sweeping the routine ends the sweep with an error. */
  predicate Breaks(k: Knobs, w: World, tool: nat, routine: string) {
    Evaluate(k, w, tool, routine) != NotEligible && !Proposes(k, w, tool, routine)
  }

  /** The routines with matured outcomes, each once. */
  function Candidates(outcomes: seq<Outcome>, now: nat): seq<(nat, string)>
    decreases |outcomes|
  {
    if outcomes == [] then []
    else
      var init, last := Candidates(outcomes[..|outcomes| - 1], now), outcomes[|outcomes| - 1];
      if last.routine.Some? && last.matured <= now && (last.tool, last.routine.value) !in init
      then init + [(last.tool, last.routine.value)] else init
  }

  lemma {:induction false} CandidatesExact(outcomes: seq<Outcome>, now: nat)
    ensures forall c :: c in Candidates(outcomes, now) <==> exists i :: 0 <= i < |outcomes| && IsMatured(outcomes[i], c.0, c.1, now)
    ensures forall i, j :: 0 <= i < j < |Candidates(outcomes, now)| ==> Candidates(outcomes, now)[i] != Candidates(outcomes, now)[j]
    decreases |outcomes|
  {
    if outcomes != [] {
      var n := |outcomes| - 1;
      CandidatesExact(outcomes[..n], now);
      assert outcomes == outcomes[..n] + [outcomes[n]];
    }
  }

  datatype Op =
    | Tick(dt: nat)
    | RecordClean(tool: nat, task: nat, routine: string, matured: nat)
    | RecordBad(tool: nat, task: nat, routine: string, matured: nat)
    | FlagBad(tool: nat, task: nat, matured: nat)
    | DemoteForTask(task: nat)
    | Sweep(tool: nat, routine: string)
    | Respond(proposal: nat, accept: bool)

  function FlagRoutine(w: World, tool: nat, task: nat): string {
    match LatestRoutine(w.outcomes, tool, task) case Some(routine) => routine case None => ""
  }

  /** Recording a bad outcome and demoting is one transaction: all or nothing. */
  function RecordAndDemote(k: Knobs, w: World, o: Outcome, routine: string): World {
    match DemoteTool(k, Record(w, o), o.tool, routine) case Some(v) => v case None => w
  }

  function Flagged(w: World, tool: nat, task: nat, matured: nat): Outcome {
    var routine := FlagRoutine(w, tool, task);
    Outcome(tool, task, false, w.now, matured, if routine != "" then Some(routine) else None)
  }

  /** The owner's answer: the first one resolves the proposal; accepting promotes and grants. */
  function Responded(w: World, i: nat, accept: bool): Option<World> {
    if i >= |w.proposals| || w.proposals[i].resolution.Some? then None
    else
      var p := w.proposals[i];
      var resolved := w.(proposals := w.proposals[i := p.(resolution := Some(Resolution(accept, w.now)))]);
      if p.tool !in w.score then None
      else if !accept then Some(resolved)
      else if HasLive(w, p.tool, p.routine) then None
      else Some(resolved.(score := w.score[p.tool := PromoteTo(w.score[p.tool])], grants := w.grants + [Grant(p.tool, p.routine, true)]))
  }

  function Do(k: Knobs, w: World, op: Op): World {
    match op
    case Tick(dt) => w.(now := w.now + dt)
    case RecordClean(tool, task, routine, matured) => Record(w, Outcome(tool, task, true, w.now, matured, Some(routine)))
    case RecordBad(tool, task, routine, matured) =>
      RecordAndDemote(k, w, Outcome(tool, task, false, w.now, matured, Some(routine)), routine)
    case FlagBad(tool, task, matured) => RecordAndDemote(k, w, Flagged(w, tool, task, matured), FlagRoutine(w, tool, task))
    case DemoteForTask(task) =>
      (match DemoteTools(k, w, ToolsActed(w.outcomes, task)) case Some(v) => v case None => w)
    case Sweep(tool, routine) =>
      if Proposes(k, w, tool, routine) then w.(proposals := w.proposals + [Proposal(tool, routine, None)]) else w
    case Respond(i, accept) => (match Responded(w, i, accept) case Some(v) => v case None => w)
  }

  /** The gate's autonomy layer: the tool is in the auto band and the routine has a live grant. */
  predicate AutonomyApproves(w: World, tool: nat, routine: string) {
    tool in w.score && Band(w.score[tool]) == ExecuteAuto && HasLive(w, tool, routine)
  }

  function Run(k: Settings, w: World, ops: seq<Op>): World
    decreases |ops|
  {
    if ops == [] then w else Do(k(|ops| - 1), Run(k, w, ops[..|ops| - 1]), ops[|ops| - 1])
  }

  // ---------------------------------------------------------------- what an operation does to a routine

  /** The operation demotes the tool: with a routine, only that one's grant goes; without, all. */
  predicate DemotesWith(w: World, op: Op, tool: nat, routine: string) {
    match op
    case RecordBad(t, _, r, _) => t == tool && r == routine && tool in w.score
    case FlagBad(t, task, _) => t == tool && routine == FlagRoutine(w, t, task) && tool in w.score
    case DemoteForTask(task) =>
      var acted := ToolsActed(w.outcomes, task);
      routine == "" && tool in acted && forall t :: t in acted ==> t in w.score
    case _ => false
  }

  ghost predicate Demotes(w: World, op: Op, tool: nat) {
    exists routine :: DemotesWith(w, op, tool, routine)
  }

  predicate Revokes(w: World, op: Op, tool: nat, routine: string) {
    DemotesWith(w, op, tool, routine) || DemotesWith(w, op, tool, "")
  }

  /** The owner accepts a promotion of the tool for that routine. */
  predicate Accepts(w: World, op: Op, tool: nat, routine: string) {
    && op.Respond? && op.accept && op.proposal < |w.proposals|
    && w.proposals[op.proposal].tool == tool && w.proposals[op.proposal].routine == routine
    && Responded(w, op.proposal, true).Some?
  }

  // ---------------------------------------------------------------- demotions in sequence

  /** A demotion touches one tool: its score, its grants, its open proposals, and no outcome. */
  lemma DemoteToolExact(k: Knobs, w: World, tool: nat, routine: string)
    requires tool in w.score
    ensures var v := DemoteTool(k, w, tool, routine).value;
      && v.now == w.now && v.outcomes == w.outcomes && v.score.Keys == w.score.Keys
      && (forall t :: t in w.score ==> v.score[t] == if t == tool then Demote(w.score[t], k.decrement) else w.score[t])
      && |v.grants| == |w.grants| && |v.proposals| == |w.proposals|
      && (forall i :: 0 <= i < |w.grants| ==> v.grants[i] == RevokeGrant(w.grants[i], tool, routine))
      && (forall i :: 0 <= i < |w.proposals| ==> v.proposals[i] == Withdraw(w.proposals[i], tool, w.now))
  {
  }

  function RevokeIf(g: Grant, tools: seq<nat>): Grant {
    if g.tool in tools then g.(live := false) else g
  }

  function WithdrawIf(p: Proposal, tools: seq<nat>, now: nat): Proposal {
    if p.tool in tools && p.resolution.None? then p.(resolution := Some(Resolution(false, now))) else p
  }

  /** Demoting several tools does to each what demoting it alone does, and fails if one is missing. */
  lemma {:induction false} DemoteToolsExact(k: Knobs, w: World, tools: seq<nat>)
    requires forall i, j :: 0 <= i < j < |tools| ==> tools[i] != tools[j]
    ensures DemoteTools(k, w, tools).Some? <==> forall t :: t in tools ==> t in w.score
    ensures DemoteTools(k, w, tools).Some? ==>
      var v := DemoteTools(k, w, tools).value;
      && v.now == w.now && v.outcomes == w.outcomes && v.score.Keys == w.score.Keys
      && (forall t :: t in w.score ==> v.score[t] == if t in tools then Demote(w.score[t], k.decrement) else w.score[t])
      && |v.grants| == |w.grants| && |v.proposals| == |w.proposals|
      && (forall i :: 0 <= i < |w.grants| ==> v.grants[i] == RevokeIf(w.grants[i], tools))
      && (forall i :: 0 <= i < |w.proposals| ==> v.proposals[i] == WithdrawIf(w.proposals[i], tools, w.now))
    decreases |tools|
  {
    if tools != [] {
      var n := |tools| - 1;
      var init, last := tools[..n], tools[n];
      DemoteToolsExact(k, w, init);
      assert tools == init + [last];
      assert last !in init;
      var u := DemoteTools(k, w, init);
      if u.Some? && last in u.value.score {
        DemoteToolExact(k, u.value, last, "");
      }
    }
  }

  lemma {:induction false} ToolsActedExact(outcomes: seq<Outcome>, task: nat)
    ensures forall i, j :: 0 <= i < j < |ToolsActed(outcomes, task)| ==> ToolsActed(outcomes, task)[i] != ToolsActed(outcomes, task)[j]
    ensures forall t :: t in ToolsActed(outcomes, task) <==> exists i :: 0 <= i < |outcomes| && outcomes[i].task == task && outcomes[i].tool == t
    decreases |outcomes|
  {
    if outcomes != [] {
      var n := |outcomes| - 1;
      ToolsActedExact(outcomes[..n], task);
      assert outcomes == outcomes[..n] + [outcomes[n]];
    }
  }
}
