/** Leased processing of one claimed candidate (crates/solver-worker/src/artifact_gc.rs). */
module GcLeased {
  import opened Wrappers
  import opened GcModel
  import opened GcLeaseFree

  /** `LeaseLost` is the error that makes a run hand off; the two others end it with an error:
      `BadLease` is an unreadable deadline, `Failed` a backend call or bound that gave up. */
  datatype Status = Ok | LeaseLost | BadLease | Failed

  /** The worker holds `lease`, as far as the environment's answers tell. */
  ghost predicate Working(env: Env, w: World, lease: Lease) {
    Genuine(env, w) && Fenced(env.bucket, w.trace) && !Lost(w.trace) && LastGrant(w.trace) == Some(lease)
  }

  /** The lease granted last has a deadline that does not parse. */
  ghost predicate Unreadable(t: Trace) {
    LastGrant(t).Some? && LastGrant(t).value.deadline.None?
  }

  /** The answers the candidate's own calls depend on have not been consumed. */
  ghost predicate SameAnswersAhead(v: World, w: World) {
    v.deletes == w.deletes && v.completes == w.completes && v.fails == w.fails
  }

  function RenewMargin(leaseSeconds: nat): nat {
    (if leaseSeconds / 3 < 1 then 1 else leaseSeconds / 3) * NANOS_PER_SECOND
  }

  /** No clock reading from `ticks` on comes near the deadline. */
  ghost predicate Roomy(env: Env, ticks: nat, lease: Lease, leaseSeconds: nat) {
    lease.deadline.Some?
    && forall i: nat :: i >= ticks ==> env.clock(i) + RenewMargin(leaseSeconds) < lease.deadline.value
  }

  /** The next clock reading leaves more than a second and more than a third of the lease's seconds. */
  ghost predicate Ample(env: Env, ticks: nat, lease: Lease, leaseSeconds: nat) {
    && lease.deadline.Some? && env.clock(ticks) + 1000000000 < lease.deadline.value
    && env.clock(ticks) + leaseSeconds / 3 * 1000000000 < lease.deadline.value
  }

  /** The next renewal extends the same lease beyond the clock reading that follows it. */
  ghost predicate RenewedInTime(env: Env, w: World, lease: Lease) {
    var renewal := env.renewals(w.renewals);
    && lease.deadline.Some? && renewal.Some? && renewal.value.token == lease.token
    && renewal.value.deadline.Some? && env.clock(w.ticks + 1) < renewal.value.deadline.value
  }

  /** The check succeeds exactly on an ample lease, which it keeps without a call, or after one renewal
      in time, whose lease it goes on with. */
  ghost predicate HeldOrRenewed(env: Env, start: World, w: World, lease: Lease, leaseSeconds: nat,
                                status: Status, current: Lease) {
    if Ample(env, start.ticks, lease, leaseSeconds)
    then status == Ok && current == lease && w.renewals == start.renewals
    else
      && (status == Ok <==> RenewedInTime(env, start, lease))
      && (status == Ok ==> Some(current) == env.renewals(start.renewals) && w.renewals == start.renewals + 1)
  }

  /** `ensure_current_claim`: it succeeds exactly with an ample lease or a renewal in time, and leaves
      a clock reading strictly before the deadline as the last event; failure to hold the lease is
      visible in the trace. */
  method EnsureCurrentClaim(env: Env, start: World, lease: Lease, leaseSeconds: nat)
    returns (status: Status, w: World, current: Lease)
    requires Working(env, start, lease)
    ensures Genuine(env, w) && Fenced(env.bucket, w.trace) && Calls(w.trace) == Calls(start.trace)
    ensures IsPrefix(start.trace, w.trace)
    ensures SameAnswersAhead(start, w) && w.ticks >= start.ticks && SameClaims(start, w)
    ensures status != Failed
    ensures status == LeaseLost <==> Lost(w.trace)
    ensures status == BadLease ==> Unreadable(w.trace)
    ensures status == Ok ==> Working(env, w, current) && current.token == lease.token
    ensures status == Ok ==> IsFreshCheck(w.trace, lease.token)
    ensures HeldOrRenewed(env, start, w, lease, leaseSeconds, status, current)
    ensures Roomy(env, start.ticks, lease, leaseSeconds) ==>
      status == Ok && current == lease && w.renewals == start.renewals
  {
    w := start;
    current := lease;
    if lease.deadline.None? {
      return BadLease, w, current;
    }
    var now := env.clock(w.ticks);
    w := ReadClock(env, w, CheckLease);
    assert Working(env, w, lease) && IsPrefix(start.trace, w.trace);
    if lease.deadline.value > now + RenewMargin(leaseSeconds) {
      return Ok, w, current;
    }
    var renewal := env.renewals(w.renewals);
    w := CallRenew(env, w, lease.token);
    assert Fenced(env.bucket, w.trace) && IsPrefix(start.trace, w.trace);
    if renewal.None? || renewal.value.token != lease.token {
      return LeaseLost, w, current;
    }
    current := renewal.value;
    assert Working(env, w, current);
    if current.deadline.None? {
      return BadLease, w, current;
    }
    now := env.clock(w.ticks);
    w := ReadClock(env, w, CheckRenewed);
    assert LastGrant(w.trace) == Some(current);
    status := if current.deadline.value <= now then LeaseLost else Ok;
  }

  // ---------------------------------------------------------------------
  // How leased calls relate to the plan
  // ---------------------------------------------------------------------

  /** The calls of a whole processing are those of the plan; an interrupted one made a prefix of
      them, or timed out on the very delete the plan begins with. */
  ghost predicate Follows(calls: seq<Event>, plan: Plan, status: Status) {
    match status
    case Ok => calls == plan.calls && !plan.finish.Broken?
    case Failed => calls == plan.calls && plan.finish.Broken?
    case BadLease => calls <= plan.calls
    case LeaseLost => calls <= plan.calls || TimedOutOnFirst(calls, plan)
  }

  ghost predicate TimedOutOnFirst(calls: seq<Event>, plan: Plan) {
    |plan.calls| > 0 && plan.calls[0].Delete? && calls == [Delete(plan.calls[0].token, plan.calls[0].path, TimedOut)]
  }

  lemma FollowingIsOrderly(env: Env, w: World, token: Token, c: Candidate, calls: seq<Event>, status: Status)
    requires Follows(calls, CandidatePlan(env, w, token, c), status)
    ensures Orderly(env.bucket, token, c, calls)
  {
    var plan := CandidatePlan(env, w, token, c);
    PlanIsOrderly(env, w, token, c);
    if calls <= plan.calls {
      OrderlyPrefix(env.bucket, token, c, plan.calls, calls);
    }
  }

  /** Counters raised while working, before the work is known to end well. */
  function Observe(totals: Totals, c: Candidate, calls: seq<Event>): Totals {
    if !ValidCandidate(c) then totals
    else if !c.objectDeleteRequired then totals.(detailCleanups := SaturatingAdd(totals.detailCleanups, 1))
    else if |calls| > 0 && calls[0].Delete? && calls[0].answer == Gone(Deleted)
    then totals.(objectsDeleted := SaturatingAdd(totals.objectsDeleted, 1))
    else if |calls| > 0 && calls[0].Delete? && calls[0].answer == Gone(Missing)
    then totals.(objectsMissing := SaturatingAdd(totals.objectsMissing, 1))
    else totals
  }

  /** Counters raised when the work ends well. */
  function Settle(totals: Totals, finish: Finish): Totals {
    match finish
    case Completed(rounds, total) =>
      totals.(
        completionRounds := SaturatingAdd(totals.completionRounds, rounds),
        deletedOccurrences := SaturatingAdd(totals.deletedOccurrences, total.occurrences),
        deletedRoots := SaturatingAdd(totals.deletedRoots, total.roots),
        deletedIssues := SaturatingAdd(totals.deletedIssues, total.issues),
        completed := SaturatingAdd(totals.completed, 1))
    case RetryRecorded => totals.(retryableFailures := SaturatingAdd(totals.retryableFailures, 1))
    case Broken => totals
  }

  // ---------------------------------------------------------------------
  // Completing and failing under the lease
  // ---------------------------------------------------------------------

  /** No claim was taken and no write set touched between the two. */
  ghost predicate SameClaims(v: World, w: World) {
    v.claims == w.claims && v.staleClaims == w.staleClaims && v.staleCompletes == w.staleCompletes
  }

  /** Where a leased step leaves things: further along a fenced trace of the environment, with no
      further claim taken, lost exactly when it says so, with an unreadable deadline when it says so, and still
      under the same token when the run goes on. */
  ghost predicate Stepped(env: Env, start: World, w: World, status: Status, lease: Lease, current: Lease) {
    && Genuine(env, w) && Fenced(env.bucket, w.trace)
    && IsPrefix(start.trace, w.trace) && SameClaims(start, w)
    && (status == LeaseLost <==> Lost(w.trace))
    && (status == BadLease ==> Unreadable(w.trace))
    && (status == Ok ==> Working(env, w, current) && current.token == lease.token)
  }

  /** Lease check, then one recorded failure. */
  method FailCandidate(env: Env, start: World, lease: Lease, c: Candidate, leaseSeconds: nat)
    returns (status: Status, w: World, current: Lease, ghost calls: seq<Event>)
    requires Working(env, start, lease)
    ensures Stepped(env, start, w, status, lease, current)
    ensures Calls(w.trace) == Calls(start.trace) + calls
    ensures Follows(calls, FailPlan(env, lease.token, c, start.fails), status)
    ensures status == LeaseLost ==> calls == []
    ensures Roomy(env, start.ticks, lease, leaseSeconds) ==> status in {Ok, Failed}
  {
    calls := [];
    status, w, current := EnsureCurrentClaim(env, start, lease, leaseSeconds);
    if status == Ok {
      w := CallFail(env, w, lease.token, c);
      calls := [w.trace.event];
      status := if env.failures(start.fails) then Ok else Failed;
    }
  }

  /** Lease check, then one completion call. */
  method CompleteOnce(env: Env, start: World, lease: Lease, c: Candidate, outcome: DeleteOutcome, leaseSeconds: nat,
                      ghost round: nat, ghost attempt: nat, ghost total: Completion, ghost whole: Plan)
    returns (status: Status, w: World, current: Lease, answer: Option<Completion>)
    requires Working(env, start, lease)
    requires 1 <= round <= MAX_COMPLETION_ROUNDS && 1 <= attempt <= COMPLETION_CALL_ATTEMPTS
    requires whole ==
      Ahead(start.trace, DetailPlan(env, lease.token, c, outcome, start.completes, round, attempt, total))
    ensures Stepped(env, start, w, status, lease, current)
    ensures Calls(start.trace) <= Calls(w.trace) <= whole.calls
    ensures status == Ok ==> answer == env.completions(start.completes) && w.completes == start.completes + 1
    ensures status == Ok ==>
      whole == Ahead(w.trace, AfterAnswer(env, lease.token, c, outcome, start.completes, round, attempt, total))
    ensures status != Failed && w.ticks >= start.ticks
    ensures Roomy(env, start.ticks, lease, leaseSeconds) ==> status == Ok && current == lease
  {
    answer := None;
    status, w, current := EnsureCurrentClaim(env, start, lease, leaseSeconds);
    if status == Ok {
      CompletionStep(env, w, lease.token, c, outcome, round, attempt, total);
      answer := env.completions(w.completes);
      w := CallComplete(env, w, lease.token, c, outcome);
    }
  }

  /** The call loop of one completion round: up to three attempts, each behind its own lease check. */
  method AttemptUnderLease(env: Env, start: World, lease: Lease, c: Candidate, outcome: DeleteOutcome,
                           leaseSeconds: nat, ghost round: nat, ghost total: Completion, ghost whole: Plan)
    returns (status: Status, w: World, current: Lease, completion: Completion)
    requires Working(env, start, lease)
    requires 1 <= round <= MAX_COMPLETION_ROUNDS
    requires whole == Ahead(start.trace, DetailPlan(env, lease.token, c, outcome, start.completes, round, 1, total))
    ensures Stepped(env, start, w, status, lease, current)
    ensures Calls(start.trace) <= Calls(w.trace) <= whole.calls
    ensures status == Failed ==> whole == Ahead(w.trace, Plan([], Broken))
    ensures status == Ok ==>
      whole == Ahead(w.trace, RoundRest(env, lease.token, c, outcome, w.completes, round, total, Some(completion)))
    ensures w.ticks >= start.ticks
    ensures Roomy(env, start.ticks, lease, leaseSeconds) ==> status in {Ok, Failed} && current == lease
  {
    w := start;
    current := lease;
    completion := NO_DETAILS;
    var attempt := 1;
    while true
      invariant 1 <= attempt <= COMPLETION_CALL_ATTEMPTS
      invariant Working(env, w, current) && current.token == lease.token && SameClaims(start, w)
      invariant IsPrefix(start.trace, w.trace)
      invariant whole == Ahead(w.trace, DetailPlan(env, lease.token, c, outcome, w.completes, round, attempt, total))
      invariant Calls(start.trace) <= Calls(w.trace)
      invariant w.ticks >= start.ticks
      invariant Roomy(env, start.ticks, lease, leaseSeconds) ==> current == lease
      decreases COMPLETION_CALL_ATTEMPTS - attempt
    {
      ghost var before := w.trace;
      var answer;
      status, w, current, answer :=
        CompleteOnce(env, w, current, c, outcome, leaseSeconds, round, attempt, total, whole);
      PrefixIsTransitive(start.trace, before, w.trace);
      if status != Ok {
        return;
      }
      if answer.Some? {
        completion := answer.value;
        return;
      }
      if attempt == COMPLETION_CALL_ATTEMPTS {
        status := Failed;
        return;
      }
      attempt := attempt + 1;
    }
  }

  /** One completion round: a lease check, then the attempts. */
  method CompleteRound(env: Env, start: World, lease: Lease, c: Candidate, outcome: DeleteOutcome,
                       leaseSeconds: nat, ghost round: nat, ghost total: Completion, ghost whole: Plan)
    returns (status: Status, w: World, current: Lease, completion: Completion)
    requires Working(env, start, lease)
    requires 1 <= round <= MAX_COMPLETION_ROUNDS
    requires whole == Ahead(start.trace, DetailPlan(env, lease.token, c, outcome, start.completes, round, 1, total))
    ensures Stepped(env, start, w, status, lease, current)
    ensures Calls(start.trace) <= Calls(w.trace) <= whole.calls
    ensures status == Failed ==> whole == Ahead(w.trace, Plan([], Broken))
    ensures status == Ok ==>
      whole == Ahead(w.trace, RoundRest(env, lease.token, c, outcome, w.completes, round, total, Some(completion)))
    ensures w.ticks >= start.ticks
    ensures Roomy(env, start.ticks, lease, leaseSeconds) ==> status in {Ok, Failed} && current == lease
  {
    completion := NO_DETAILS;
    status, w, current := EnsureCurrentClaim(env, start, lease, leaseSeconds);
    if status == Ok {
      ghost var checked := w.trace;
      status, w, current, completion :=
        AttemptUnderLease(env, w, current, c, outcome, leaseSeconds, round, total, whole);
      PrefixIsTransitive(start.trace, checked, w.trace);
    }
  }

  /** The round loop of `complete_claimed_candidate`. */
  method CompleteRounds(env: Env, start: World, lease: Lease, c: Candidate, outcome: DeleteOutcome, leaseSeconds: nat)
    returns (status: Status, w: World, current: Lease, rounds: nat, aggregate: Completion)
    requires Working(env, start, lease)
    ensures Stepped(env, start, w, status, lease, current)
    ensures var plan := DetailPlan(env, lease.token, c, outcome, start.completes, 1, 1, NO_DETAILS);
            var whole := Ahead(start.trace, plan);
            && Calls(start.trace) <= Calls(w.trace) <= whole.calls
            && (status == Ok ==> Calls(w.trace) == whole.calls && plan.finish == Completed(rounds, aggregate))
            && (status == Failed ==> Calls(w.trace) == whole.calls && plan.finish == Broken)
    ensures Roomy(env, start.ticks, lease, leaseSeconds) ==> status in {Ok, Failed}
  {
    w := start;
    current := lease;
    aggregate := NO_DETAILS;
    ghost var whole := Ahead(start.trace, DetailPlan(env, lease.token, c, outcome, start.completes, 1, 1, NO_DETAILS));
    rounds := 1;
    while true
      invariant 1 <= rounds <= MAX_COMPLETION_ROUNDS
      invariant Working(env, w, current) && current.token == lease.token && SameClaims(start, w)
      invariant IsPrefix(start.trace, w.trace)
      invariant whole == Ahead(w.trace, DetailPlan(env, lease.token, c, outcome, w.completes, rounds, 1, aggregate))
      invariant Calls(start.trace) <= Calls(w.trace)
      invariant w.ticks >= start.ticks
      invariant Roomy(env, start.ticks, lease, leaseSeconds) ==> current == lease
      decreases MAX_COMPLETION_ROUNDS - rounds
    {
      var completion;
      ghost var before := w.trace;
      status, w, current, completion :=
        CompleteRound(env, w, current, c, outcome, leaseSeconds, rounds, aggregate, whole);
      PrefixIsTransitive(start.trace, before, w.trace);
      if status != Ok {
        return;
      }
      aggregate := Accumulate(aggregate, completion);
      if completion.remaining == 0 {
        return;
      }
      if rounds == MAX_COMPLETION_ROUNDS {
        status := Failed;
        return;
      }
      rounds := rounds + 1;
    }
  }

  /** `complete_claimed_candidate`. */
  method CompleteClaimedCandidate(env: Env, start: World, lease: Lease, c: Candidate, outcome: DeleteOutcome,
                                  leaseSeconds: nat, before: Totals)
    returns (status: Status, w: World, current: Lease, totals: Totals, ghost calls: seq<Event>)
    requires Working(env, start, lease)
    ensures Stepped(env, start, w, status, lease, current)
    ensures Calls(w.trace) == Calls(start.trace) + calls
    ensures var plan := DetailPlan(env, lease.token, c, outcome, start.completes, 1, 1, NO_DETAILS);
            && Follows(calls, plan, status)
            && totals == if status == Ok then Settle(before, plan.finish) else before
    ensures Roomy(env, start.ticks, lease, leaseSeconds) ==> status in {Ok, Failed}
  {
    var rounds, aggregate;
    status, w, current, rounds, aggregate := CompleteRounds(env, start, lease, c, outcome, leaseSeconds);
    ghost var plan := DetailPlan(env, lease.token, c, outcome, start.completes, 1, 1, NO_DETAILS);
    calls := Calls(w.trace)[|Calls(start.trace)|..];
    totals := if status == Ok then Settle(before, Completed(rounds, aggregate)) else before;
  }

  // ---------------------------------------------------------------------
  // One claimed candidate
  // ---------------------------------------------------------------------

  /** A call made first stays first. */
  lemma FollowsPrepend(d: Event, calls: seq<Event>, plan: Plan, status: Status)
    requires Follows(calls, plan, status) && |plan.calls| > 0 && !plan.calls[0].Delete?
    ensures Follows([d] + calls, Prepend([d], plan), status)
  {
    if calls <= plan.calls {
      assert [d] + calls <= [d] + plan.calls;
    }
  }

  /** The timed delete, up to and including its answer. */
  method DeleteUnderLease(env: Env, start: World, lease: Lease, path: string, leaseSeconds: nat)
    returns (status: Status, w: World, current: Lease, answer: DeleteAnswer)
    requires Working(env, start, lease)
    ensures status != Failed && Stepped(env, start, w, status, lease, current)
    ensures status == Ok ==> answer == DeleteReply(env, start.deletes)
    ensures status == Ok ==> Calls(w.trace) == Calls(start.trace) + [Delete(lease.token, path, answer)]
    ensures w.completes == start.completes && w.fails == start.fails && w.ticks >= start.ticks
    ensures status != Ok ==>
      Calls(w.trace) == Calls(start.trace)
      || (status == LeaseLost && Calls(w.trace) == Calls(start.trace) + [Delete(lease.token, path, TimedOut)])
    ensures Roomy(env, start.ticks, lease, leaseSeconds) && !env.overdue(start.deletes) ==>
      status == Ok && current == lease
  {
    answer := TimedOut;
    status, w, current := EnsureCurrentClaim(env, start, lease, leaseSeconds);
    if status != Ok {
      return;
    }
    var now := env.clock(w.ticks);
    w := ReadClock(env, w, BoundDelete);
    assert LastGrant(w.trace) == Some(current);
    if current.deadline.value < now {
      status := LeaseLost;
      return;
    }
    assert Working(env, w, current);
    answer := TimedDelete(env, w.deletes);
    w := CallDelete(env, w, lease.token, path);
    assert LastGrant(w.trace) == Some(current);
    if answer == TimedOut {
      status := LeaseLost;
    }
  }

  /** What processing one candidate leaves behind. */
  ghost predicate Handled(env: Env, start: World, w: World, lease: Lease, current: Lease, c: Candidate,
                          status: Status, calls: seq<Event>, before: Totals, totals: Totals)
  {
    && Stepped(env, start, w, status, lease, current)
    && Calls(w.trace) == Calls(start.trace) + calls
    && Follows(calls, CandidatePlan(env, start, lease.token, c), status)
    && Counts(CandidatePlan(env, start, lease.token, c), c, status, calls, before, totals)
  }

  /** The counters after processing, from the calls made and how the plan ends. */
  ghost predicate Counts(plan: Plan, c: Candidate, status: Status, calls: seq<Event>, before: Totals, totals: Totals) {
    totals == if status == Ok then Settle(Observe(before, c, calls), plan.finish) else Observe(before, c, calls)
  }

  /** What is left of the object path once the delete has been answered. */
  ghost function AnswerPlan(env: Env, w: World, token: Token, c: Candidate, answer: DeleteAnswer): Plan {
    match answer
    case Gone(outcome) => DetailPlan(env, token, c, outcome, w.completes, 1, 1, NO_DETAILS)
    case _ => FailPlan(env, token, c, w.fails)
  }

  function CountAnswer(totals: Totals, answer: DeleteAnswer): Totals {
    match answer
    case Gone(Deleted) => totals.(objectsDeleted := SaturatingAdd(totals.objectsDeleted, 1))
    case Gone(Missing) => totals.(objectsMissing := SaturatingAdd(totals.objectsMissing, 1))
    case _ => totals
  }

  /** Completion with the outcome of the delete, or a recorded failure. */
  method AfterDelete(env: Env, start: World, lease: Lease, c: Candidate, answer: DeleteAnswer, leaseSeconds: nat,
                     before: Totals)
    returns (status: Status, w: World, current: Lease, totals: Totals, ghost calls: seq<Event>)
    requires Working(env, start, lease)
    ensures Stepped(env, start, w, status, lease, current)
    ensures Calls(w.trace) == Calls(start.trace) + calls
    ensures var plan := AnswerPlan(env, start, lease.token, c, answer);
            && Follows(calls, plan, status)
            && totals == if status == Ok then Settle(CountAnswer(before, answer), plan.finish)
                         else CountAnswer(before, answer)
    ensures Roomy(env, start.ticks, lease, leaseSeconds) ==> status in {Ok, Failed}
  {
    totals := CountAnswer(before, answer);
    match answer
    case Gone(outcome) =>
      status, w, current, totals, calls :=
        CompleteClaimedCandidate(env, start, lease, c, outcome, leaseSeconds, totals);
    case _ =>
      status, w, current, calls := FailCandidate(env, start, lease, c, leaseSeconds);
      if status == Ok {
        totals := totals.(retryableFailures := SaturatingAdd(totals.retryableFailures, 1));
      }
  }

  lemma ObjectPlan(env: Env, start: World, w: World, token: Token, c: Candidate, calls: seq<Event>, status: Status)
    requires ValidCandidate(c) && c.objectDeleteRequired && OrEmpty(c.bucket) == env.bucket
    requires w.completes == start.completes && w.fails == start.fails
    requires Follows(calls, AnswerPlan(env, w, token, c, DeleteReply(env, start.deletes)), status)
    ensures Follows([Delete(token, OrEmpty(c.path), DeleteReply(env, start.deletes))] + calls,
                    CandidatePlan(env, start, token, c), status)
    ensures CandidatePlan(env, start, token, c).finish
         == AnswerPlan(env, w, token, c, DeleteReply(env, start.deletes)).finish
  {
    var answer := DeleteReply(env, start.deletes);
    var plan := AnswerPlan(env, w, token, c, answer);
    match env.deletions(start.deletes) {
      case None =>
      case Some(outcome) => DetailPlanShape(env, token, c, outcome, w.completes, 1, 1, NO_DETAILS);
    }
    FollowsPrepend(Delete(token, OrEmpty(c.path), answer), calls, plan, status);
  }

  /** The counters say of the calls what they say of the delete's answer. */
  lemma ObserveAnswer(totals: Totals, token: Token, c: Candidate, answer: DeleteAnswer, rest: seq<Event>)
    requires ValidCandidate(c) && c.objectDeleteRequired
    ensures Observe(totals, c, [Delete(token, OrEmpty(c.path), answer)] + rest) == CountAnswer(totals, answer)
  {
    assert ([Delete(token, OrEmpty(c.path), answer)] + rest)[0] == Delete(token, OrEmpty(c.path), answer);
    match answer
    case Gone(outcome) => assert outcome == Deleted || outcome == Missing;
    case _ =>
  }

  lemma ObjectUnanswered(env: Env, start: World, token: Token, c: Candidate, calls: seq<Event>, status: Status)
    requires ValidCandidate(c) && c.objectDeleteRequired && OrEmpty(c.bucket) == env.bucket
    requires (status == LeaseLost && calls == [Delete(token, OrEmpty(c.path), TimedOut)])
          || (status in {LeaseLost, BadLease} && calls == [])
    ensures Follows(calls, CandidatePlan(env, start, token, c), status)
    ensures forall totals :: Observe(totals, c, calls) == totals
  {
    var plan := CandidatePlan(env, start, token, c);
    assert plan.calls[0] == Delete(token, OrEmpty(c.path), DeleteReply(env, start.deletes));
  }

  /** The object path: timed delete, then completion with its outcome, or a recorded failure. */
  method ProcessObject(env: Env, start: World, lease: Lease, c: Candidate, leaseSeconds: nat, before: Totals)
    returns (status: Status, w: World, current: Lease, totals: Totals, ghost calls: seq<Event>)
    requires Working(env, start, lease)
    requires ValidCandidate(c) && c.objectDeleteRequired && OrEmpty(c.bucket) == env.bucket
    ensures Handled(env, start, w, lease, current, c, status, calls, before, totals)
    ensures Roomy(env, start.ticks, lease, leaseSeconds) && !env.overdue(start.deletes) ==> status in {Ok, Failed}
  {
    totals := before;
    var answer;
    status, w, current, answer := DeleteUnderLease(env, start, lease, OrEmpty(c.path), leaseSeconds);
    if status != Ok {
      calls := if Calls(w.trace) == Calls(start.trace) then [] else [Delete(lease.token, OrEmpty(c.path), TimedOut)];
      ObjectUnanswered(env, start, lease.token, c, calls, status);
      return;
    }
    ghost var answered, deletion := w, Delete(lease.token, OrEmpty(c.path), answer);
    status, w, current, totals, calls := AfterDelete(env, w, current, c, answer, leaseSeconds, before);
    PrefixIsTransitive(start.trace, answered.trace, w.trace);
    ObjectPlan(env, start, answered, lease.token, c, calls, status);
    ObserveAnswer(before, lease.token, c, answer, calls);
    assert Calls(start.trace) + [deletion] + calls == Calls(start.trace) + ([deletion] + calls);
    calls := [deletion] + calls;
  }

  /** `process_claimed_candidate`: whatever the backend and the clock do, the calls made are those
      of the lease-free plan, or a prefix of them when the lease is lost or unreadable. */
  method ProcessClaimedCandidate(env: Env, start: World, lease: Lease, c: Candidate, leaseSeconds: nat, before: Totals)
    returns (status: Status, w: World, current: Lease, totals: Totals, ghost calls: seq<Event>)
    requires Working(env, start, lease)
    ensures Handled(env, start, w, lease, current, c, status, calls, before, totals)
    ensures Roomy(env, start.ticks, lease, leaseSeconds) && !env.overdue(start.deletes) ==> status in {Ok, Failed}
  {
    totals := before;
    if !ValidCandidate(c) {
      status, w, current, calls := FailCandidate(env, start, lease, c, leaseSeconds);
      if status == Ok {
        totals := totals.(retryableFailures := SaturatingAdd(totals.retryableFailures, 1));
      }
    } else if !c.objectDeleteRequired {
      totals := totals.(detailCleanups := SaturatingAdd(totals.detailCleanups, 1));
      status, w, current, totals, calls :=
        CompleteClaimedCandidate(env, start, lease, c, Deleted, leaseSeconds, totals);
    } else if OrEmpty(c.bucket) != env.bucket {
      status, w, current, calls := FailCandidate(env, start, lease, c, leaseSeconds);
      if status == Ok {
        totals := totals.(retryableFailures := SaturatingAdd(totals.retryableFailures, 1));
      }
    } else {
      status, w, current, totals, calls := ProcessObject(env, start, lease, c, leaseSeconds, before);
    }
  }
}
