/** The readiness predicate and the length of one park. Times and durations count nanoseconds. */
module Readiness {
  import opened Lifecycle
  import opened Relations

  const MILLISECOND: int := 1_000_000
  const SECOND: int := 1_000 * MILLISECOND
  const REEVAL_INTERVAL: int := 6 * 3600 * SECOND

  /** No unmet blocker, and the start date, if there is one, has arrived. */
  predicate IsReady(edges: set<Edge>, state: map<TaskId, TaskState>, t: TaskId, startsAt: Option<int>, now: int) {
    && Unmet(edges, state, t) == {}
    && (startsAt.Some? ==> startsAt.value <= now)
  }

  /** How long to park a task that is not ready. */
  function WaitHint(startsAt: Option<int>, now: int): int {
    if startsAt.Some? then
      var d := startsAt.value - now;
      if 0 < d < REEVAL_INTERVAL then
        if d < SECOND then SECOND else d
      else REEVAL_INTERVAL
    else REEVAL_INTERVAL
  }

  /** The hint travels through the step result in whole milliseconds, rounded down. */
  function Park(startsAt: Option<int>, now: int): int {
    WaitHint(startsAt, now) / MILLISECOND * MILLISECOND
  }

  /** Every park lasts between one second and six hours. A start date less than six hours away is
      overslept by less than a second and missed by less than a millisecond. */
  lemma ParkBounds(startsAt: Option<int>, now: int)
    ensures 1_000_000_000 == SECOND <= Park(startsAt, now) <= REEVAL_INTERVAL == 21_600_000_000_000
    ensures Park(startsAt, now) % 1_000_000 == 0
    ensures startsAt.Some? && now < startsAt.value < now + REEVAL_INTERVAL ==>
      startsAt.value - 1_000_000 < now + Park(startsAt, now) < startsAt.value + SECOND
    ensures startsAt.Some? && now + SECOND <= startsAt.value < now + REEVAL_INTERVAL ==> now + Park(startsAt, now) <= startsAt.value
    ensures startsAt.None? || startsAt.value <= now || startsAt.value >= now + REEVAL_INTERVAL ==>
      Park(startsAt, now) == REEVAL_INTERVAL
  {
    var h := WaitHint(startsAt, now);
    assert SECOND == 1000 * MILLISECOND && REEVAL_INTERVAL == 21_600_000 * MILLISECOND;
    assert h - MILLISECOND < Park(startsAt, now) <= h;
    assert h >= SECOND ==> h / MILLISECOND >= 1000;
  }

  /** One evaluation that found the task not ready: when it looked at the clock, and when it looked
      again to size the park. */
  datatype Evaluation = Evaluation(at: int, hintAt: int)

  /** Consecutive evaluations of a task held by nothing but the start date, each made no earlier
      than the end of the park before it, on a clock that never runs backwards. */
  ghost predicate HeldOnlyByDate(start: int, evals: seq<Evaluation>) {
    && (forall i :: 0 <= i < |evals| ==> evals[i].at < start && evals[i].at <= evals[i].hintAt)
    && (forall i :: 0 <= i < |evals| - 1 ==> evals[i].hintAt + Park(Some(start), evals[i].hintAt) <= evals[i + 1].at)
  }

  /** The start date is reached after at most floor(d / 6h) + 2 evaluations that fail, so the next
      one, number floor(d / 6h) + 3 at the latest, finds the task ready. */
  lemma {:induction false} EvaluationsBounded(start: int, evals: seq<Evaluation>)
    requires evals != [] && HeldOnlyByDate(start, evals)
    ensures |evals| <= (start - evals[0].at) / REEVAL_INTERVAL + 2
    ensures start - evals[0].at < MILLISECOND ==> |evals| == 1
    decreases |evals|
  {
    var now := start - evals[0].at;
    QuotientStep(0, now);
    if |evals| > 1 {
      var rest := evals[1..];
      assert forall i :: 0 <= i < |rest| ==> rest[i] == evals[i + 1];
      assert evals[0].hintAt + Park(Some(start), evals[0].hintAt) <= evals[0 + 1].at;
      OnePark(start, evals[0], rest[0].at);
      EvaluationsBounded(start, rest);
      QuotientStep(start - rest[0].at, now);
    }
  }

  /** A park that ends before the start date took six hours off the wait, or left less than a
      millisecond of it. */
  lemma OnePark(start: int, e: Evaluation, next: int)
    requires e.at <= e.hintAt && e.hintAt + Park(Some(start), e.hintAt) <= next < start
    ensures MILLISECOND <= start - e.at
    ensures start - next < MILLISECOND || start - next <= start - e.at - REEVAL_INTERVAL
  {
    ParkBounds(Some(start), e.hintAt);
  }

  lemma QuotientStep(left: int, now: int)
    requires 0 <= left && 0 <= now
    ensures 0 <= now / REEVAL_INTERVAL
    ensures left <= now - REEVAL_INTERVAL ==> left / REEVAL_INTERVAL + 1 <= now / REEVAL_INTERVAL
  {
    if left <= now - REEVAL_INTERVAL {
      var q := left / REEVAL_INTERVAL;
      assert q * REEVAL_INTERVAL <= left;
      assert (q + 1) * REEVAL_INTERVAL <= now;
    }
  }

  /** The bound is reached: six hours, one second and half a millisecond away, the task is looked
      at three times in vain. */
  lemma EvaluationsBoundTight()
    ensures exists start, evals: seq<Evaluation> ::
      HeldOnlyByDate(start, evals) && evals != [] && |evals| == (start - evals[0].at) / REEVAL_INTERVAL + 2
  {
    var start := REEVAL_INTERVAL + SECOND + MILLISECOND / 2;
    var evals := [Evaluation(0, 0), Evaluation(REEVAL_INTERVAL, REEVAL_INTERVAL),
                  Evaluation(REEVAL_INTERVAL + SECOND, REEVAL_INTERVAL + SECOND)];
    assert Park(Some(start), 0) == REEVAL_INTERVAL;
    assert Park(Some(start), REEVAL_INTERVAL) == SECOND;
    assert HeldOnlyByDate(start, evals);
  }
}
