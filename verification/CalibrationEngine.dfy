/** The calibration tables and the transactions that update them in place. The settings are read live: each
    operation is given those in force while it runs. */
module CalibrationEngine {
  import opened Lifecycle
  import opened Calibration
  import opened CalibrationHistory

  class Engine {
    var now: nat
    var score: map<nat, real>
    var outcomes: seq<Outcome>
    var proposals: seq<Proposal>
    var grants: seq<Grant>

    constructor (score: map<nat, real>)
      ensures W() == World(0, score, [], [], [])
    {
      this.now, this.score := 0, score;
      outcomes, proposals, grants := [], [], [];
    }

    function W(): World
      reads this
    {
      World(now, score, outcomes, proposals, grants)
    }

    /** One reflexive demotion: score, grants, then every open proposal of the tool, one by one. */
    method DemoteOne(knobs: Knobs, tool: nat, routine: string) returns (ok: bool)
      modifies this
      ensures ok <==> tool in old(score)
      ensures W() == if ok then DemoteTool(knobs, old(W()), tool, routine).value else old(W())
    {
      if tool !in score {
        return false;
      }
      score := score[tool := Calibration.Demote(score[tool], knobs.decrement)];
      var held := grants;
      grants := seq(|held|, i requires 0 <= i < |held| => RevokeGrant(held[i], tool, routine));
      var i := 0;
      while i < |proposals|
        invariant 0 <= i <= |proposals| == |old(proposals)|
        invariant now == old(now) && outcomes == old(outcomes)
        invariant score == old(score)[tool := Calibration.Demote(old(score)[tool], knobs.decrement)]
        invariant grants == DemoteTool(knobs, old(W()), tool, routine).value.grants
        invariant forall j :: 0 <= j < i ==> proposals[j] == Withdraw(old(proposals)[j], tool, now)
        invariant forall j :: i <= j < |proposals| ==> proposals[j] == old(proposals)[j]
      {
        if proposals[i].tool == tool && proposals[i].resolution.None? {
          proposals := proposals[i := proposals[i].(resolution := Some(Resolution(false, now)))];
        }
        i := i + 1;
      }
      assert proposals == DemoteTool(knobs, old(W()), tool, routine).value.proposals;
      ok := true;
    }

    method InsertOutcome(o: Outcome)
      modifies this`outcomes
      ensures W() == Record(old(W()), o)
    {
      outcomes := outcomes + [o];
    }

    method RecordBadOutcome(knobs: Knobs, tool: nat, task: nat, routine: string, matured: nat) returns (ok: bool)
      modifies this
      ensures W() == Do(knobs, old(W()), RecordBad(tool, task, routine, matured)) && (ok <==> tool in old(score))
    {
      InsertOutcome(Outcome(tool, task, false, now, matured, Some(routine)));
      ok := DemoteOne(knobs, tool, routine);
      if !ok {
        outcomes := outcomes[..|outcomes| - 1];
      }
    }

    method FlagLatest(knobs: Knobs, tool: nat, task: nat, matured: nat) returns (ok: bool)
      modifies this
      ensures W() == Do(knobs, old(W()), FlagBad(tool, task, matured)) && (ok <==> tool in old(score))
    {
      var latest := LatestRoutine(outcomes, tool, task);
      var routine := if latest.Some? then latest.value else "";
      InsertOutcome(Outcome(tool, task, false, now, matured, if routine != "" then Some(routine) else None));
      ok := DemoteOne(knobs, tool, routine);
      if !ok {
        outcomes := outcomes[..|outcomes| - 1];
      }
    }

    /** Cancelling a task, or bad feedback on it, demotes every tool that acted under it. */
    method DemoteTask(knobs: Knobs, task: nat) returns (ok: bool)
      modifies this
      ensures W() == Do(knobs, old(W()), DemoteForTask(task))
      ensures ok <==> forall t :: t in ToolsActed(old(outcomes), task) ==> t in old(score)
    {
      hide ToolsActed;
      var tools := ToolsActed(outcomes, task);
      ToolsActedExact(outcomes, task);
      DemoteToolsExact(knobs, W(), tools);
      var before := W();
      var i := 0;
      while i < |tools|
        invariant 0 <= i <= |tools|
        invariant DemoteTools(knobs, before, tools[..i]) == Some(W())
      {
        assert tools[..i + 1][..i] == tools[..i];
        ok := DemoteOne(knobs, tools[i], "");
        if !ok {
          DemoteToolsExact(knobs, before, tools[..i]);
          now, score, outcomes, proposals, grants := before.now, before.score, before.outcomes, before.proposals, before.grants;
          return;
        }
        i := i + 1;
      }
      assert tools[..i] == tools;
      ok := true;
    }

    /** The checks in the order they are made; the first that fails ends the evaluation. What is eligible
        comes with its evidence. */
    method MaybeProposePromotion(knobs: Knobs, tool: nat, routine: string) returns (verdict: Verdict, evidence: seq<Outcome>)
      ensures verdict == Evaluate(knobs, W(), tool, routine)
      ensures verdict == Eligible ==> evidence == Recent(knobs, W(), tool, routine)
    {
      if HasLive(W(), tool, routine) {
        return NotEligible, [];
      }
      if HasOpen(W(), tool, routine) {
        return NotEligible, [];
      }
      if Limit(knobs) < 0 {
        return BadLimit, [];
      }
      evidence := Recent(knobs, W(), tool, routine);
      if |evidence| < knobs.minSample {
        return NotEligible, [];
      }
      if |evidence| > 0 && CleanCount(evidence) as real / |evidence| as real < knobs.ratio {
        return NotEligible, [];
      }
      var latest := LatestClean(outcomes, tool, routine, now);
      if latest.None? {
        return NotEligible, [];
      }
      var declined := LatestDeclined(proposals, tool, routine);
      if declined.Some? && declined.value > latest.value {
        return NotEligible, [];
      }
      verdict := if tool in score then Eligible else ToolMissing;
    }

    /** Writes a proposal down, unless its evidence cannot be encoded: an empty one has no ratio. */
    method EmitProposal(tool: nat, routine: string, evidence: seq<Outcome>) returns (ok: bool)
      modifies this`proposals
      ensures ok <==> evidence != []
      ensures proposals == if ok then old(proposals) + [Proposal(tool, routine, None)] else old(proposals)
    {
      ok := evidence != [];
      if ok {
        proposals := proposals + [Proposal(tool, routine, None)];
      }
    }

    /** Evaluates one candidate and emits what is due. */
    method SweepOne(knobs: Knobs, tool: nat, routine: string) returns (ok: bool, emitted: nat)
      modifies this`proposals
      ensures ok <==> !Breaks(knobs, old(W()), tool, routine)
      ensures W() == if ok then Do(knobs, old(W()), Sweep(tool, routine)) else old(W())
      ensures |proposals| == |old(proposals)| + emitted && old(proposals) <= proposals
    {
      hide Passes, Recent;
      emitted := 0;
      var verdict, evidence := MaybeProposePromotion(knobs, tool, routine);
      if verdict == BadLimit || verdict == ToolMissing {
        return false, 0;
      }
      ok := true;
      if verdict == Eligible {
        ok := EmitProposal(tool, routine, evidence);
        emitted := if ok then 1 else 0;
      }
    }

    /** The scheduled pass: it sweeps the routines with matured outcomes in turn, up to the first error. */
    method SweepWorkflow(knobs: Settings) returns (emitted: nat, swept: nat)
      modifies this
      ensures var candidates := Candidates(old(outcomes), old(now));
        && swept <= |candidates|
        && W() == Run(knobs, old(W()), SweepOps(candidates[..swept]))
        && (swept < |candidates| ==> Breaks(knobs(swept), W(), candidates[swept].0, candidates[swept].1))
        && (swept == |candidates| ==> NothingDue(knobs, W(), candidates))
      ensures |proposals| == |old(proposals)| + emitted && old(proposals) <= proposals
    {
      hide Candidates, Run, Do, Breaks;
      var candidates := Candidates(outcomes, now);
      emitted, swept := 0, 0;
      SweptNone(knobs, W(), candidates);
      while swept < |candidates|
        invariant 0 <= swept <= |candidates|
        invariant W() == Run(knobs, old(W()), SweepOps(candidates[..swept]))
        invariant |proposals| == |old(proposals)| + emitted && old(proposals) <= proposals
      {
        var ok, more := SweepOne(knobs(swept), candidates[swept].0, candidates[swept].1);
        if !ok {
          return;
        }
        SweptSnoc(knobs, old(W()), candidates, swept);
        emitted := emitted + more;
        swept := swept + 1;
      }
      assert candidates[..swept] == candidates;
      SweepIsComplete(knobs, old(W()));
    }

    /** The owner's answer, in one transaction: a failure leaves everything as it was. */
    method RespondToPromotion(i: nat, accept: bool) returns (ok: bool)
      modifies this
      ensures ok <==> Responded(old(W()), i, accept).Some?
      ensures forall knobs :: W() == Do(knobs, old(W()), Respond(i, accept))
    {
      if i >= |proposals| || proposals[i].resolution.Some? {
        return false;
      }
      var before := W();
      var p := proposals[i];
      proposals := proposals[i := p.(resolution := Some(Resolution(accept, now)))];
      if p.tool !in score {
        proposals := before.proposals;
        return false;
      }
      if accept {
        score := score[p.tool := PromoteTo(score[p.tool])];
        if HasLive(W(), p.tool, p.routine) {
          proposals, score := before.proposals, before.score;
          return false;
        }
        grants := grants + [Grant(p.tool, p.routine, true)];
      }
      ok := true;
    }
  }
}
