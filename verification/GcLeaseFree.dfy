/** The lease-free candidate logic of crates/solver-worker/src/artifact_gc.rs, which specifies
    what a leased run may do for one candidate. */
module GcLeaseFree {
  import opened Wrappers
  import opened GcModel
  import opened GcFields

  /** How the work on one candidate ends: `Broken` is an error return. */
  datatype Finish = Completed(rounds: nat, total: Completion) | RetryRecorded | Broken

  /** The calls made for one candidate, with the answers they got, and how the work ends. */
  datatype Plan = Plan(calls: seq<Event>, finish: Finish)

  const NO_DETAILS := Completion(0, 0, 0, 0)

  function Accumulate(total: Completion, done: Completion): Completion {
    Completion(
      done.remaining,
      SaturatingAdd(total.occurrences, done.occurrences),
      SaturatingAdd(total.roots, done.roots),
      SaturatingAdd(total.issues, done.issues))
  }

  function Prepend(calls: seq<Event>, plan: Plan): Plan {
    Plan(calls + plan.calls, plan.finish)
  }

  /** Bounded detail cleanup from completion answer `k`, in the given round and attempt. */
  function DetailPlan(env: Env, token: Token, c: Candidate, outcome: DeleteOutcome,
                      k: nat, round: nat, attempt: nat, total: Completion): Plan
    requires 1 <= round <= MAX_COMPLETION_ROUNDS && 1 <= attempt <= COMPLETION_CALL_ATTEMPTS
    decreases MAX_COMPLETION_ROUNDS - round, COMPLETION_CALL_ATTEMPTS - attempt, k
  {
    var call := Complete(token, c, outcome, env.completions(k));
    match env.completions(k)
    case None =>
      if attempt < COMPLETION_CALL_ATTEMPTS
      then Prepend([call], DetailPlan(env, token, c, outcome, k + 1, round, attempt + 1, total))
      else Plan([call], Broken)
    case Some(done) =>
      if done.remaining == 0 then Plan([call], Completed(round, Accumulate(total, done)))
      else if round == MAX_COMPLETION_ROUNDS then Plan([call], Broken)
      else Prepend([call], DetailPlan(env, token, c, outcome, k + 1, round + 1, 1, Accumulate(total, done)))
  }

  function FailPlan(env: Env, token: Token, c: Candidate, k: nat): Plan {
    Plan([Fail(token, c, env.failures(k))], if env.failures(k) then RetryRecorded else Broken)
  }

  /** All calls for one candidate when nothing interferes: a malformed candidate or one in a
      foreign bucket is failed, an object is deleted before its metadata is completed. */
  function CandidatePlan(env: Env, w: World, token: Token, c: Candidate): Plan {
    if !ValidCandidate(c) then FailPlan(env, token, c, w.fails)
    else if !c.objectDeleteRequired then DetailPlan(env, token, c, Deleted, w.completes, 1, 1, NO_DETAILS)
    else if OrEmpty(c.bucket) != env.bucket then FailPlan(env, token, c, w.fails)
    else
      var call := Delete(token, OrEmpty(c.path), DeleteReply(env, w.deletes));
      match env.deletions(w.deletes)
      case None => Prepend([call], FailPlan(env, token, c, w.fails))
      case Some(outcome) =>
        Prepend([call], DetailPlan(env, token, c, outcome, w.completes, 1, 1, NO_DETAILS))
  }

  // ---------------------------------------------------------------------
  // What the calls for one candidate look like
  // ---------------------------------------------------------------------

  /** Only the first call may delete, and only the candidate's own expired object in the expected
      bucket; only such an object and a remnant are completed, the object only with the outcome of that
      delete; a failure is the last call and never follows a completion. */
  ghost predicate Orderly(bucket: string, token: Token, c: Candidate, calls: seq<Event>) {
    && |calls| <= 30001
    && (forall i :: 0 <= i < |calls| && calls[i].Delete? ==>
          i == 0 && IsExpiredObject(c, bucket) && calls[i].token == token && c.path == Some(calls[i].path))
    && (forall i :: 0 <= i < |calls| && calls[i].Complete? ==> IsExpiredObject(c, bucket) || IsRemnant(c))
    && (forall i :: 0 <= i < |calls| && calls[i].Fail? ==> i == |calls| - 1)
    && (forall i :: 0 <= i < |calls| && !calls[i].Delete? ==>
          (calls[i].Complete? || calls[i].Fail?) && calls[i].token == token && calls[i].candidate == c)
    && (forall i :: 0 <= i < |calls| && calls[i].Complete? && c.objectDeleteRequired ==>
          c.path.Some? && calls[0] == Delete(token, c.path.value, Gone(calls[i].outcome)))
    && (forall i, j :: 0 <= i < |calls| && 0 <= j < |calls| ==> !(calls[i].Complete? && calls[j].Fail?))
  }

  lemma {:induction false} DetailPlanShape(env: Env, token: Token, c: Candidate, outcome: DeleteOutcome,
                                           k: nat, round: nat, attempt: nat, total: Completion)
    requires 1 <= round <= MAX_COMPLETION_ROUNDS && 1 <= attempt <= COMPLETION_CALL_ATTEMPTS
    ensures var calls := DetailPlan(env, token, c, outcome, k, round, attempt, total).calls;
            && |calls| <= (MAX_COMPLETION_ROUNDS - round) * COMPLETION_CALL_ATTEMPTS
                          + COMPLETION_CALL_ATTEMPTS + 1 - attempt
            && forall i :: 0 <= i < |calls| ==>
                 calls[i].Complete? && calls[i].token == token && calls[i].candidate == c && calls[i].outcome == outcome
    decreases MAX_COMPLETION_ROUNDS - round, COMPLETION_CALL_ATTEMPTS - attempt
  {
    match env.completions(k)
    case None =>
      if attempt < COMPLETION_CALL_ATTEMPTS {
        DetailPlanShape(env, token, c, outcome, k + 1, round, attempt + 1, total);
      }
    case Some(done) =>
      if done.remaining != 0 && round < MAX_COMPLETION_ROUNDS {
        DetailPlanShape(env, token, c, outcome, k + 1, round + 1, 1, Accumulate(total, done));
      }
  }

  lemma PlanIsOrderly(env: Env, w: World, token: Token, c: Candidate)
    ensures Orderly(env.bucket, token, c, CandidatePlan(env, w, token, c).calls)
  {
    ValidMeans(c);
    var outcome := if c.objectDeleteRequired && env.deletions(w.deletes).Some?
      then env.deletions(w.deletes).value else Deleted;
    DetailPlanShape(env, token, c, outcome, w.completes, 1, 1, NO_DETAILS);
  }

  lemma OrderlyPrefix(bucket: string, token: Token, c: Candidate, calls: seq<Event>, prefix: seq<Event>)
    requires Orderly(bucket, token, c, calls) && prefix <= calls
    ensures Orderly(bucket, token, c, prefix)
  {
    assert forall i :: 0 <= i < |prefix| ==> prefix[i] == calls[i];
  }

  /** The first call of a plan tells what the candidate's fields describe: an expired object in the
      expected bucket is deleted, a remnant is completed, and nothing else gets more than one failure. */
  lemma PlanBegins(env: Env, w: World, token: Token, c: Candidate)
    ensures var calls := CandidatePlan(env, w, token, c).calls;
            && calls != []
            && (calls[0].Delete? <==> IsExpiredObject(c, env.bucket))
            && (calls[0].Complete? <==> IsRemnant(c))
            && (calls[0].Fail? ==> |calls| == 1)
  {
    ValidMeans(c);
    PlanIsOrderly(env, w, token, c);
  }

  // ---------------------------------------------------------------------
  // The lease-free functions
  // ---------------------------------------------------------------------

  /** The calls already made in `t` together with those `rest` still holds. */
  ghost function Ahead(t: Trace, rest: Plan): Plan {
    Prepend(Calls(t), rest)
  }

  /** What is ahead once completion answer `k` has been received in the given round and attempt. */
  ghost function AfterAnswer(env: Env, token: Token, c: Candidate, outcome: DeleteOutcome,
                             k: nat, round: nat, attempt: nat, total: Completion): Plan
    requires 1 <= round <= MAX_COMPLETION_ROUNDS && 1 <= attempt <= COMPLETION_CALL_ATTEMPTS
  {
    match env.completions(k)
    case None =>
      if attempt < COMPLETION_CALL_ATTEMPTS
      then DetailPlan(env, token, c, outcome, k + 1, round, attempt + 1, total) else Plan([], Broken)
    case Some(done) =>
      if done.remaining == 0 then Plan([], Completed(round, Accumulate(total, done)))
      else if round == MAX_COMPLETION_ROUNDS then Plan([], Broken)
      else DetailPlan(env, token, c, outcome, k + 1, round + 1, 1, Accumulate(total, done))
  }

  /** What is ahead once a round has ended with the given completion, or given up. */
  ghost function RoundRest(env: Env, token: Token, c: Candidate, outcome: DeleteOutcome,
                           k: nat, round: nat, total: Completion, completion: Option<Completion>): Plan
    requires 1 <= round <= MAX_COMPLETION_ROUNDS
  {
    match completion
    case None => Plan([], Broken)
    case Some(done) =>
      if done.remaining == 0 then Plan([], Completed(round, Accumulate(total, done)))
      else if round == MAX_COMPLETION_ROUNDS then Plan([], Broken)
      else DetailPlan(env, token, c, outcome, k, round + 1, 1, Accumulate(total, done))
  }

  /** Making one completion call turns the plan into what is ahead after its answer. */
  lemma CompletionStep(env: Env, w: World, token: Token, c: Candidate, outcome: DeleteOutcome,
                       round: nat, attempt: nat, total: Completion)
    requires 1 <= round <= MAX_COMPLETION_ROUNDS && 1 <= attempt <= COMPLETION_CALL_ATTEMPTS
    ensures Ahead(w.trace, DetailPlan(env, token, c, outcome, w.completes, round, attempt, total))
         == Ahead(CallComplete(env, w, token, c, outcome).trace,
                  AfterAnswer(env, token, c, outcome, w.completes, round, attempt, total))
  {
    var call := Complete(token, c, outcome, env.completions(w.completes));
  }

  /** The inner loop of one round: up to three attempts. */
  method AttemptCompletion(env: Env, start: World, token: Token, c: Candidate, outcome: DeleteOutcome,
                           ghost round: nat, ghost total: Completion)
    returns (w: World, completion: Option<Completion>)
    requires 1 <= round <= MAX_COMPLETION_ROUNDS
    ensures Ahead(start.trace, DetailPlan(env, token, c, outcome, start.completes, round, 1, total)) ==
            Ahead(w.trace, RoundRest(env, token, c, outcome, w.completes, round, total, completion))
  {
    w := start;
    ghost var whole := Ahead(start.trace, DetailPlan(env, token, c, outcome, start.completes, round, 1, total));
    var attempt := 1;
    while true
      invariant 1 <= attempt <= COMPLETION_CALL_ATTEMPTS
      invariant Ahead(w.trace, DetailPlan(env, token, c, outcome, w.completes, round, attempt, total)) == whole
      decreases COMPLETION_CALL_ATTEMPTS - attempt
    {
      completion := env.completions(w.completes);
      CompletionStep(env, w, token, c, outcome, round, attempt, total);
      w := CallComplete(env, w, token, c, outcome);
      if completion.Some? || attempt == COMPLETION_CALL_ATTEMPTS {
        return;
      }
      attempt := attempt + 1;
    }
  }

  /** `complete_artifact_details`. */
  method CompleteArtifactDetails(env: Env, start: World, token: Token, c: Candidate, outcome: DeleteOutcome)
    returns (w: World, result: Option<(nat, Completion)>)
    ensures var plan := DetailPlan(env, token, c, outcome, start.completes, 1, 1, NO_DETAILS);
            && Calls(w.trace) == Calls(start.trace) + plan.calls
            && (match result
                case Some((rounds, total)) => plan.finish == Completed(rounds, total)
                case None => plan.finish == Broken)
  {
    w := start;
    var total := NO_DETAILS;
    ghost var whole := Ahead(start.trace, DetailPlan(env, token, c, outcome, start.completes, 1, 1, NO_DETAILS));
    var round := 1;
    while true
      invariant 1 <= round <= MAX_COMPLETION_ROUNDS
      invariant Ahead(w.trace, DetailPlan(env, token, c, outcome, w.completes, round, 1, total)) == whole
      decreases MAX_COMPLETION_ROUNDS - round
    {
      var completion;
      w, completion := AttemptCompletion(env, w, token, c, outcome, round, total);
      if completion.None? {
        return w, None;
      }
      total := Accumulate(total, completion.value);
      if completion.value.remaining == 0 {
        return w, Some((round, total));
      }
      if round == MAX_COMPLETION_ROUNDS {
        return w, None;
      }
      round := round + 1;
    }
  }

  /** `process_artifact_gc_candidate` composed with `complete_artifact_details`; an invalid
      candidate is an immediate error here. */
  method ProcessArtifactGcCandidate(env: Env, start: World, token: Token, c: Candidate)
    returns (w: World, finish: Finish)
    ensures !ValidCandidate(c) ==> w == start && finish == Broken
    ensures ValidCandidate(c) ==>
      var plan := CandidatePlan(env, start, token, c);
      Calls(w.trace) == Calls(start.trace) + plan.calls && finish == plan.finish
  {
    w := start;
    if !ValidCandidate(c) {
      return w, Broken;
    }
    var outcome := Deleted;
    if c.objectDeleteRequired {
      if OrEmpty(c.bucket) != env.bucket {
        w := CallFail(env, w, token, c);
        return w, if env.failures(start.fails) then RetryRecorded else Broken;
      }
      w := w.(trace := Then(w.trace, Delete(token, OrEmpty(c.path), DeleteReply(env, w.deletes))),
              deletes := w.deletes + 1);
      match env.deletions(start.deletes)
      case None =>
        w := CallFail(env, w, token, c);
        return w, if env.failures(start.fails) then RetryRecorded else Broken;
      case Some(gone) =>
        outcome := gone;
    }
    var result;
    w, result := CompleteArtifactDetails(env, w, token, c, outcome);
    finish := if result.Some? then Completed(result.value.0, result.value.1) else Broken;
  }
}
