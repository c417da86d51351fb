/** The log of a garbage-collection run: which claims were taken, how each candidate was dealt with,
    and what the totals owe to it (crates/solver-worker/src/artifact_gc.rs). */
module GcLog {
  import opened Wrappers
  import opened GcModel
  import opened GcLeaseFree
  import opened GcLeased
  import opened GcDetails

  /** One candidate as it was processed: from which state, with which calls, and how it ended. */
  datatype Processed = Processed(token: Token, candidate: Candidate, from: World, calls: seq<Event>, status: Status)

  /** A candidate with the token it was claimed under. */
  datatype Task = Task(token: Token, candidate: Candidate)

  /** Claims and candidates in order; the log grows at its end. `claimed` is where a claim left
      the run. */
  datatype Log =
    | Empty
    | Batch(earlier: Log, claimed: World, claim: Claim)
    | Next(earlier: Log, last: Processed)

  ghost function Tasks(log: Log): seq<Task> {
    match log
    case Empty => []
    case Batch(earlier, _, _) => Tasks(earlier)
    case Next(earlier, last) => Tasks(earlier) + [Task(last.token, last.candidate)]
  }

  ghost function ClaimTasks(claim: Claim): seq<Task> {
    seq(|claim.items|, i requires 0 <= i < |claim.items| => Task(claim.lease.token, claim.items[i]))
  }

  ghost function TasksClaimed(log: Log): seq<Task> {
    match log
    case Empty => []
    case Batch(earlier, _, claim) => TasksClaimed(earlier) + ClaimTasks(claim)
    case Next(earlier, _) => TasksClaimed(earlier)
  }

  ghost function Batches(log: Log): nat {
    match log
    case Empty => 0
    case Batch(earlier, _, _) => Batches(earlier) + 1
    case Next(earlier, _) => Batches(earlier)
  }

  ghost predicate AllSized(log: Log, size: int) {
    match log
    case Empty => true
    case Batch(earlier, _, claim) => AllSized(earlier, size) && |claim.items| <= size
    case Next(earlier, _) => AllSized(earlier, size)
  }

  /** Every candidate was dealt with to the end. */
  ghost predicate AllOk(log: Log) {
    match log
    case Empty => true
    case Batch(earlier, _, _) => AllOk(earlier)
    case Next(earlier, last) => AllOk(earlier) && last.status == Ok
  }

  /** Only the last candidate was not, and it ended with `status`. */
  ghost predicate EndedWith(log: Log, status: Status) {
    log.Next? && AllOk(log.earlier) && log.last.status == status
  }

  // ---------------------------------------------------------------------
  // The log and the trace
  // ---------------------------------------------------------------------

  ghost predicate Lawful(env: Env, p: Processed) {
    Follows(p.calls, CandidatePlan(env, p.from, p.token, p.candidate), p.status)
  }

  /** The log accounts for the trace `t` from `base` on: each claim is an event of it, each
      candidate was begun at a point of it, and the calls from there are the candidate's own, which
      follow its plan. */
  ghost predicate Logged(env: Env, base: Trace, t: Trace, log: Log)
    decreases log
  {
    match log
    case Empty => IsPrefix(base, t) && Calls(t) == Calls(base)
    case Batch(earlier, claimed, claim) =>
      && IsPrefix(claimed.trace, t) && Calls(t) == Calls(claimed.trace) && Genuine(env, claimed)
      && claimed.trace.Then? && claimed.trace.event == Claimed(Some(claim))
      && Logged(env, base, claimed.trace.prior, earlier)
    case Next(earlier, p) =>
      && IsPrefix(p.from.trace, t) && Calls(t) == Calls(p.from.trace) + p.calls && Genuine(env, p.from)
      && Lawful(env, p)
      && Logged(env, base, p.from.trace, earlier)
  }

  /** Events that are not calls change nothing. */
  lemma LoggedLater(env: Env, base: Trace, t: Trace, e: Event, log: Log)
    requires Logged(env, base, t, log) && !e.Delete? && !e.Complete? && !e.Fail?
    ensures Logged(env, base, Then(t, e), log)
  {
    match log
    case Empty =>
    case Batch(_, claimed, _) => assert IsPrefix(claimed.trace, Then(t, e));
    case Next(_, p) => assert IsPrefix(p.from.trace, Then(t, e));
  }

  lemma {:induction false} LoggedIsLater(env: Env, base: Trace, t: Trace, log: Log)
    requires Logged(env, base, t, log)
    ensures IsPrefix(base, t)
    decreases log
  {
    match log
    case Empty =>
    case Batch(earlier, claimed, _) =>
      LoggedIsLater(env, base, claimed.trace.prior, earlier);
      assert IsPrefix(claimed.trace.prior, claimed.trace);
      PrefixIsTransitive(base, claimed.trace.prior, claimed.trace);
      PrefixIsTransitive(base, claimed.trace, t);
    case Next(earlier, p) =>
      LoggedIsLater(env, base, p.from.trace, earlier);
      PrefixIsTransitive(base, p.from.trace, t);
  }

  ghost predicate InLog(p: Processed, log: Log) {
    match log
    case Empty => false
    case Batch(earlier, _, _) => InLog(p, earlier)
    case Next(earlier, last) => p == last || InLog(p, earlier)
  }

  /** Any candidate of a run: only its first call may delete, under its own token and its own
      object, an object is completed only with the outcome of that one delete, and it never gets
      both a completion and a failure. */
  lemma {:induction false} LoggedIsOrderly(env: Env, base: Trace, t: Trace, log: Log, p: Processed)
    requires Logged(env, base, t, log) && InLog(p, log)
    ensures Orderly(env.bucket, p.token, p.candidate, p.calls)
    decreases log
  {
    match log
    case Batch(earlier, claimed, _) => LoggedIsOrderly(env, base, claimed.trace.prior, earlier, p);
    case Next(earlier, last) =>
      if p == last {
        FollowingIsOrderly(env, p.from, p.token, p.candidate, p.calls, p.status);
      } else {
        LoggedIsOrderly(env, base, last.from.trace, earlier, p);
      }
  }

  // ---------------------------------------------------------------------
  // The totals
  // ---------------------------------------------------------------------

  const MAX_CANDIDATES := MAX_BATCH_SIZE * MAX_BATCHES

  ghost predicate SameStaged(a: Totals, b: Totals) {
    a.stagingDeleted == b.stagingDeleted && a.stagingMissing == b.stagingMissing
    && a.stagingSetsCleaned == b.stagingSetsCleaned && a.stagingHandoffs == b.stagingHandoffs
  }

  ghost predicate SameFrame(a: Totals, b: Totals) {
    a.batches == b.batches && a.candidates == b.candidates && a.leaseHandoffs == b.leaseHandoffs && SameStaged(a, b)
  }

  function CountBatch(totals: Totals, more: nat): Totals {
    totals.(batches := SaturatingAdd(totals.batches, 1), candidates := SaturatingAdd(totals.candidates, more))
  }

  /** What one processed candidate does to the totals. */
  ghost function After(env: Env, t: Totals, p: Processed): (r: Totals)
    ensures SameFrame(t, r)
  {
    var seen := Observe(t, p.candidate, p.calls);
    if p.status == Ok then Settle(seen, CandidatePlan(env, p.from, p.token, p.candidate).finish) else seen
  }

  /** The totals a log adds up to. */
  ghost function Tally(env: Env, opening: Totals, log: Log): (r: Totals)
    ensures SameStaged(opening, r) && r.leaseHandoffs == opening.leaseHandoffs
    decreases log
  {
    match log
    case Empty => opening
    case Batch(earlier, _, claim) => CountBatch(Tally(env, opening, earlier), |claim.items|)
    case Next(earlier, p) => After(env, Tally(env, opening, earlier), p)
  }

  /** Exactly `n` candidates have been dealt with. */
  ghost predicate Settled(t: Totals, n: nat) {
    && t.completed + t.retryableFailures == n
    && t.completed == t.objectsDeleted + t.objectsMissing + t.detailCleanups
  }

  lemma {:induction false} DetailsNeverRetry(env: Env, token: Token, c: Candidate, outcome: DeleteOutcome,
                                             k: nat, round: nat, attempt: nat, total: Completion)
    requires 1 <= round <= MAX_COMPLETION_ROUNDS && 1 <= attempt <= COMPLETION_CALL_ATTEMPTS
    ensures !DetailPlan(env, token, c, outcome, k, round, attempt, total).finish.RetryRecorded?
    decreases MAX_COMPLETION_ROUNDS - round, COMPLETION_CALL_ATTEMPTS - attempt
  {
    match env.completions(k)
    case None =>
      if attempt < COMPLETION_CALL_ATTEMPTS {
        DetailsNeverRetry(env, token, c, outcome, k + 1, round, attempt + 1, total);
      }
    case Some(done) =>
      if done.remaining != 0 && round < MAX_COMPLETION_ROUNDS {
        DetailsNeverRetry(env, token, c, outcome, k + 1, round + 1, 1, Accumulate(total, done));
      }
  }

  /** A finished candidate adds one completion together with its cause, or one retryable failure. */
  lemma OneMoreSettled(env: Env, w: World, token: Token, c: Candidate, calls: seq<Event>, t: Totals, n: nat)
    requires Settled(t, n) && n < MAX_CANDIDATES
    requires Follows(calls, CandidatePlan(env, w, token, c), Ok)
    ensures Settled(Settle(Observe(t, c, calls), CandidatePlan(env, w, token, c).finish), n + 1)
  {
    var outcome := if c.objectDeleteRequired && env.deletions(w.deletes).Some?
      then env.deletions(w.deletes).value else Deleted;
    DetailsNeverRetry(env, token, c, outcome, w.completes, 1, 1, NO_DETAILS);
    var plan := CandidatePlan(env, w, token, c);
    if ValidCandidate(c) && c.objectDeleteRequired && OrEmpty(c.bucket) == env.bucket {
      assert calls[0] == Delete(token, OrEmpty(c.path), DeleteReply(env, w.deletes));
      assert plan.finish.Completed? <==> env.deletions(w.deletes).Some?;
      assert outcome.Deleted? || outcome.Missing?;
    } else if ValidCandidate(c) && !c.objectDeleteRequired {
      assert plan.finish.Completed?;
    } else {
      assert calls[0].Fail? && plan.finish.RetryRecorded?;
    }
  }

  /** `n` candidates have been settled, and one more may have been begun. */
  ghost predicate AlmostSettled(t: Totals, n: nat) {
    && t.completed + t.retryableFailures == n
    && t.completed <= t.objectsDeleted + t.objectsMissing + t.detailCleanups <= t.completed + 1
  }

  /** No batch has been counted, no candidate dealt with and no detail deleted. */
  ghost predicate Unworked(t: Totals) {
    && t.batches == 0 && t.candidates == 0 && Settled(t, 0)
    && t.completionRounds == t.deletedOccurrences == t.deletedRoots == t.deletedIssues == 0
  }

  /** The log is no longer than a run can be. */
  ghost predicate Bounded(log: Log) {
    |Tasks(log)| <= MAX_CANDIDATES && |TasksClaimed(log)| <= MAX_CANDIDATES && Batches(log) <= MAX_BATCHES
  }

  /** A finished candidate is settled; an interrupted one may have been counted as begun. */
  lemma AfterSettles(env: Env, t: Totals, p: Processed, n: nat)
    requires Lawful(env, p) && Settled(t, n) && n < MAX_CANDIDATES
    ensures if p.status == Ok then Settled(After(env, t, p), n + 1) else AlmostSettled(After(env, t, p), n)
  {
    if p.status == Ok {
      OneMoreSettled(env, p.from, p.token, p.candidate, p.calls, t, n);
    }
  }

  /** The counters of batches and candidates count what the log holds, and its finished candidates
      are settled. */
  lemma {:induction false} TallySettles(env: Env, base: Trace, t: Trace, opening: Totals, log: Log)
    requires Logged(env, base, t, log) && AllOk(log) && Unworked(opening) && Bounded(log)
    ensures var r := Tally(env, opening, log);
            && Settled(r, |Tasks(log)|) && r.batches == Batches(log) && r.candidates == |TasksClaimed(log)|
    decreases log
  {
    match log
    case Empty =>
    case Batch(earlier, claimed, _) => TallySettles(env, base, claimed.trace.prior, opening, earlier);
    case Next(earlier, p) =>
      TallySettles(env, base, p.from.trace, opening, earlier);
      AfterSettles(env, Tally(env, opening, earlier), p, |Tasks(earlier)|);
  }

  /** The same when the last candidate was interrupted. */
  lemma TallyEnds(env: Env, base: Trace, t: Trace, opening: Totals, log: Log, status: Status)
    requires Logged(env, base, t, log) && EndedWith(log, status) && status != Ok
    requires Unworked(opening) && Bounded(log)
    ensures var r := Tally(env, opening, log);
            && |Tasks(log)| > 0 && AlmostSettled(r, |Tasks(log)| - 1)
            && r.batches == Batches(log) && r.candidates == |TasksClaimed(log)|
  {
    TallySettles(env, base, log.last.from.trace, opening, log.earlier);
    AfterSettles(env, Tally(env, opening, log.earlier), log.last, |Tasks(log.earlier)|);
  }

  /** The calls of the candidates dealt with to the end, in order. */
  ghost function SettledCalls(log: Log): seq<Event> {
    match log
    case Empty => []
    case Batch(earlier, _, _) => SettledCalls(earlier)
    case Next(earlier, p) => SettledCalls(earlier) + (if p.status == Ok then p.calls else [])
  }

  /** The detail counters are the sums of the answers that the completion calls received. */
  ghost predicate DetailsCounted(t: Totals, answers: seq<Completion>) {
    && t.completionRounds == Capped(|answers|)
    && t.deletedOccurrences == Capped(Occurrences(answers))
    && t.deletedRoots == Capped(Roots(answers))
    && t.deletedIssues == Capped(Issues(answers))
  }

  /** The answers are those of the candidates dealt with to the end. */
  ghost predicate DetailsLogged(t: Totals, log: Log) {
    DetailsCounted(t, Answered(SettledCalls(log)))
  }

  lemma NoDetails(t: Totals)
    requires Unworked(t)
    ensures DetailsCounted(t, Answered([]))
  {
  }

  lemma DetailsOneMore(env: Env, t: Totals, p: Processed, made: seq<Event>)
    requires Lawful(env, p) && p.status == Ok && DetailsCounted(t, Answered(made))
    ensures DetailsCounted(After(env, t, p), Answered(made + p.calls))
  {
    var plan := CandidatePlan(env, p.from, p.token, p.candidate);
    var seen := Observe(t, p.candidate, p.calls);
    PlanAddsUp(env, p.from, p.token, p.candidate);
    AnsweredJoins(made, p.calls);
    ObserveKeepsDetails(t, p.candidate, p.calls, Answered(made));
    if plan.finish.Completed? {
      SettleAdds(seen, plan.finish.rounds, plan.finish.total, Answered(made), Answered(p.calls));
    } else {
      assert Answered(made) + [] == Answered(made);
    }
  }

  lemma ObserveKeepsDetails(t: Totals, c: Candidate, calls: seq<Event>, answers: seq<Completion>)
    requires DetailsCounted(t, answers)
    ensures DetailsCounted(Observe(t, c, calls), answers)
  {
  }

  lemma SettleAdds(t: Totals, rounds: nat, sum: Completion, made: seq<Completion>, answers: seq<Completion>)
    requires DetailsCounted(t, made) && rounds == |answers| && AddsUp(NO_DETAILS, answers, sum)
    ensures DetailsCounted(Settle(t, Completed(rounds, sum)), made + answers)
  {
    SumsJoin(made, answers);
    CappedAdds(|made|, |answers|);
    CappedAdds(Occurrences(made), Occurrences(answers));
    CappedAdds(Roots(made), Roots(answers));
    CappedAdds(Issues(made), Issues(answers));
  }

  /** Over a whole log, interrupted candidates left out. */
  lemma {:induction false} TallyCountsDetails(env: Env, base: Trace, t: Trace, opening: Totals, log: Log)
    requires Logged(env, base, t, log) && Unworked(opening)
    ensures DetailsLogged(Tally(env, opening, log), log)
    decreases log
  {
    match log
    case Empty => NoDetails(opening);
    case Batch(earlier, claimed, _) => TallyCountsDetails(env, base, claimed.trace.prior, opening, earlier);
    case Next(earlier, p) =>
      TallyCountsDetails(env, base, p.from.trace, opening, earlier);
      if p.status == Ok {
        DetailsOneMore(env, Tally(env, opening, earlier), p, SettledCalls(earlier));
      } else {
        assert SettledCalls(log) == SettledCalls(earlier);
        ObserveKeepsDetails(Tally(env, opening, earlier), p.candidate, p.calls, Answered(SettledCalls(earlier)));
      }
  }

  /** The counters of deleted and missing objects are what the trace shows. */
  ghost predicate DeletesCounted(t: Totals, calls: seq<Event>) {
    && t.stagingDeleted + t.objectsDeleted == GoneCount(calls, Deleted)
    && t.stagingMissing + t.objectsMissing == GoneCount(calls, Missing)
  }

  lemma {:induction false} OnlyFirstDeletes(calls: seq<Event>, outcome: DeleteOutcome)
    requires forall i :: 0 < i < |calls| ==> !calls[i].Delete?
    ensures GoneCount(calls, outcome) ==
            if |calls| > 0 && calls[0].Delete? && calls[0].answer == Gone(outcome) then 1 else 0
  {
    if calls == [] {
      assert Answers(calls) == [];
    } else {
      var front, last := calls[..|calls| - 1], calls[|calls| - 1];
      OnlyFirstDeletes(front, outcome);
      assert calls == front + [last];
      GoneCountSnoc(front, last, outcome);
    }
  }

  /** A candidate's delete is counted whether or not the work on it came to an end. */
  lemma ObservedIsCounted(env: Env, w: World, token: Token, c: Candidate, calls: seq<Event>, status: Status, t: Totals)
    requires Follows(calls, CandidatePlan(env, w, token, c), status)
    requires t.objectsDeleted < MAX_U64 && t.objectsMissing < MAX_U64
    ensures Observe(t, c, calls).objectsDeleted == t.objectsDeleted + GoneCount(calls, Deleted)
    ensures Observe(t, c, calls).objectsMissing == t.objectsMissing + GoneCount(calls, Missing)
  {
    FollowingIsOrderly(env, w, token, c, calls, status);
    OnlyFirstDeletes(calls, Deleted);
    OnlyFirstDeletes(calls, Missing);
    if !ValidCandidate(c) && calls != [] {
      assert calls[0].Fail?;
    }
  }

  lemma CountedOneMore(env: Env, t: Totals, p: Processed, made: seq<Event>)
    requires Lawful(env, p) && t.objectsDeleted < MAX_U64 && t.objectsMissing < MAX_U64 && DeletesCounted(t, made)
    ensures DeletesCounted(After(env, t, p), made + p.calls)
  {
    ObservedIsCounted(env, p.from, p.token, p.candidate, p.calls, p.status, t);
    GoneCountJoins(made, p.calls, Deleted);
    GoneCountJoins(made, p.calls, Missing);
    var seen, r := Observe(t, p.candidate, p.calls), After(env, t, p);
    assert r.objectsDeleted == seen.objectsDeleted && r.objectsMissing == seen.objectsMissing;
  }

  /** Every delete of the trace is counted once, under its outcome. */
  lemma {:induction false} TallyCountsDeletes(env: Env, base: Trace, t: Trace, opening: Totals, log: Log)
    requires Logged(env, base, t, log) && (AllOk(log) || (log.Next? && AllOk(log.earlier)))
    requires Unworked(opening) && Bounded(log) && DeletesCounted(opening, Calls(base))
    ensures DeletesCounted(Tally(env, opening, log), Calls(t))
    decreases log
  {
    match log
    case Empty =>
    case Batch(earlier, claimed, _) => TallyCountsDeletes(env, base, claimed.trace.prior, opening, earlier);
    case Next(earlier, p) =>
      TallyCountsDeletes(env, base, p.from.trace, opening, earlier);
      TallySettles(env, base, p.from.trace, opening, earlier);
      CountedOneMore(env, Tally(env, opening, earlier), p, Calls(p.from.trace));
  }

  // ---------------------------------------------------------------------
  // Sizes
  // ---------------------------------------------------------------------

  lemma {:induction false} TimesGrows(a: nat, b: nat, c: nat)
    requires a <= b
    ensures a * c <= b * c
    decreases b
  {
    if a == b {
    } else {
      TimesGrows(a, b - 1, c);
      assert b * c == (b - 1) * c + c;
    }
  }

  lemma {:induction false} ClaimsFit(log: Log, size: nat)
    requires AllSized(log, size)
    ensures |TasksClaimed(log)| <= Batches(log) * size
  {
    match log
    case Empty =>
    case Batch(earlier, _, _) =>
      ClaimsFit(earlier, size);
      assert (Batches(earlier) + 1) * size == Batches(earlier) * size + size;
    case Next(earlier, _) => ClaimsFit(earlier, size);
  }

  /** A run within the batch limits is bounded. */
  lemma WithinLimits(log: Log, size: nat, maxBatches: nat)
    requires AllSized(log, size) && size <= MAX_BATCH_SIZE && Batches(log) <= maxBatches <= MAX_BATCHES
    requires Tasks(log) <= TasksClaimed(log)
    ensures Bounded(log) && |TasksClaimed(log)| <= maxBatches * size
  {
    ClaimsFit(log, size);
    TimesGrows(Batches(log), maxBatches, size);
    TimesGrows(maxBatches, MAX_BATCHES, size);
    assert MAX_BATCHES * size <= MAX_CANDIDATES;
  }
}
