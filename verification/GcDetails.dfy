/** When detail cleanup stops and what it adds up to, on the answers alone
    (crates/solver-worker/src/artifact_gc.rs). */
module GcDetails {
  import opened Wrappers
  import opened GcModel
  import opened GcLeaseFree

  // ---------------------------------------------------------------------
  // When it stops
  // ---------------------------------------------------------------------

  /** How many completion calls from `first` up to `i` were answered. */
  ghost function AnsweredBy(env: Env, first: nat, i: nat): nat
    decreases i
  {
    if i <= first then 0 else AnsweredBy(env, first, i - 1) + if env.completions(i - 1).Some? then 1 else 0
  }

  /** Answer `i` says that no details remain. */
  ghost predicate NoneRemain(env: Env, i: nat) {
    env.completions(i).Some? && env.completions(i).value.remaining == 0
  }

  /** Nothing remains, three calls in a row went unanswered, or ten thousand were answered. */
  ghost predicate Stops(env: Env, first: nat, i: nat) {
    || NoneRemain(env, i)
    || (i >= first + 2 && forall j: nat :: i - 2 <= j <= i ==> env.completions(j).None?)
    || (env.completions(i).Some? && AnsweredBy(env, first, i + 1) == 10000)
  }

  /** Call `k` of a cleanup that began with call `first` is the given attempt of the given round. */
  ghost predicate Stands(env: Env, first: nat, k: nat, round: nat, attempt: nat) {
    && 1 <= round <= MAX_COMPLETION_ROUNDS && 1 <= attempt <= COMPLETION_CALL_ATTEMPTS
    && first + attempt <= k + 1 && AnsweredBy(env, first, k) == round - 1
    && (forall j: nat :: k + 1 - attempt <= j < k ==> env.completions(j).None?)
    && (first + attempt <= k ==> env.completions(k - attempt).Some?)
  }

  /** Of the `n` answers from `k` on, the last is the first to stop the cleanup. */
  ghost predicate StopsFirst(env: Env, first: nat, k: nat, n: nat) {
    n > 0 && Stops(env, first, k + n - 1) && forall i: nat :: k <= i < k + n - 1 ==> !Stops(env, first, i)
  }

  /** A plan takes the answers from `k` on one after the other, up to the first that stops the cleanup,
      and ends well exactly when nothing remains. */
  ghost predicate RunsOut(env: Env, token: Token, c: Candidate, outcome: DeleteOutcome, first: nat, k: nat,
                          plan: Plan) {
    && StopsFirst(env, first, k, |plan.calls|)
    && (forall i :: 0 <= i < |plan.calls| ==> plan.calls[i] == Complete(token, c, outcome, env.completions(k + i)))
    && (plan.finish.Completed? <==> NoneRemain(env, k + |plan.calls| - 1))
  }

  lemma RunsOutLater(env: Env, token: Token, c: Candidate, outcome: DeleteOutcome, first: nat, k: nat, plan: Plan)
    requires !Stops(env, first, k) && RunsOut(env, token, c, outcome, first, k + 1, plan)
    ensures RunsOut(env, token, c, outcome, first, k,
                    Prepend([Complete(token, c, outcome, env.completions(k))], plan))
  {
    var later := Prepend([Complete(token, c, outcome, env.completions(k))], plan);
    assert k + 1 + |plan.calls| - 1 == k + |later.calls| - 1;
    forall i | 0 <= i < |later.calls| ensures later.calls[i] == Complete(token, c, outcome, env.completions(k + i)) {
      if i > 0 {
        assert later.calls[i] == plan.calls[i - 1] && k + 1 + (i - 1) == k + i;
      }
    }
  }

  /** An unanswered call stops at the third attempt, and is else followed by the next one. */
  lemma Unanswered(env: Env, first: nat, k: nat, round: nat, attempt: nat)
    requires Stands(env, first, k, round, attempt) && env.completions(k).None?
    ensures Stops(env, first, k) <==> attempt == COMPLETION_CALL_ATTEMPTS
    ensures attempt < COMPLETION_CALL_ATTEMPTS ==> Stands(env, first, k + 1, round, attempt + 1)
  {
    if attempt < COMPLETION_CALL_ATTEMPTS && k >= first + 2 {
      assert env.completions(k - attempt).Some?;
    }
  }

  /** An answer stops when nothing remains or the rounds are used up, and else begins a round. */
  lemma AnsweredOnce(env: Env, first: nat, k: nat, round: nat, attempt: nat)
    requires Stands(env, first, k, round, attempt) && env.completions(k).Some?
    ensures Stops(env, first, k) <==> NoneRemain(env, k) || round == MAX_COMPLETION_ROUNDS
    ensures round < MAX_COMPLETION_ROUNDS ==> Stands(env, first, k + 1, round + 1, 1)
  {
    assert AnsweredBy(env, first, k + 1) == round;
  }

  lemma {:induction false} DetailPlanStops(env: Env, token: Token, c: Candidate, outcome: DeleteOutcome,
                                           first: nat, k: nat, round: nat, attempt: nat, total: Completion)
    requires Stands(env, first, k, round, attempt)
    ensures RunsOut(env, token, c, outcome, first, k, DetailPlan(env, token, c, outcome, k, round, attempt, total))
    decreases MAX_COMPLETION_ROUNDS - round, COMPLETION_CALL_ATTEMPTS - attempt
  {
    match env.completions(k)
    case None =>
      Unanswered(env, first, k, round, attempt);
      if attempt < COMPLETION_CALL_ATTEMPTS {
        DetailPlanStops(env, token, c, outcome, first, k + 1, round, attempt + 1, total);
        RunsOutLater(env, token, c, outcome, first, k,
                     DetailPlan(env, token, c, outcome, k + 1, round, attempt + 1, total));
      }
    case Some(done) =>
      AnsweredOnce(env, first, k, round, attempt);
      if done.remaining != 0 && round < MAX_COMPLETION_ROUNDS {
        var sum := Accumulate(total, done);
        DetailPlanStops(env, token, c, outcome, first, k + 1, round + 1, 1, sum);
        RunsOutLater(env, token, c, outcome, first, k, DetailPlan(env, token, c, outcome, k + 1, round + 1, 1, sum));
      }
  }

  /** A whole cleanup, for every sequence of answers. */
  lemma CleanupStops(env: Env, token: Token, c: Candidate, outcome: DeleteOutcome, first: nat)
    ensures RunsOut(env, token, c, outcome, first, first,
                    DetailPlan(env, token, c, outcome, first, 1, 1, NO_DETAILS))
  {
    DetailPlanStops(env, token, c, outcome, first, first, 1, 1, NO_DETAILS);
  }

  // ---------------------------------------------------------------------
  // What it adds up to
  // ---------------------------------------------------------------------

  /** The answers that the completion calls among `calls` received. */
  ghost function Answered(calls: seq<Event>): seq<Completion> {
    if calls == [] then []
    else if calls[0].Complete? && calls[0].completion.Some? then [calls[0].completion.value] + Answered(calls[1..])
    else Answered(calls[1..])
  }

  lemma {:induction false} AnsweredJoins(a: seq<Event>, b: seq<Event>)
    ensures Answered(a + b) == Answered(a) + Answered(b)
  {
    if a == [] {
      assert a + b == b;
    } else {
      AnsweredJoins(a[1..], b);
      assert (a + b)[1..] == a[1..] + b;
    }
  }

  lemma {:induction false} NothingAnswered(calls: seq<Event>)
    requires forall i :: 0 <= i < |calls| ==> !calls[i].Complete?
    ensures Answered(calls) == []
  {
    if calls == [] {
    } else {
      NothingAnswered(calls[1..]);
    }
  }

  ghost function Occurrences(answers: seq<Completion>): nat {
    if answers == [] then 0 else answers[0].occurrences + Occurrences(answers[1..])
  }

  ghost function Roots(answers: seq<Completion>): nat {
    if answers == [] then 0 else answers[0].roots + Roots(answers[1..])
  }

  ghost function Issues(answers: seq<Completion>): nat {
    if answers == [] then 0 else answers[0].issues + Issues(answers[1..])
  }

  lemma {:induction false} SumsJoin(a: seq<Completion>, b: seq<Completion>)
    ensures Occurrences(a + b) == Occurrences(a) + Occurrences(b)
    ensures Roots(a + b) == Roots(a) + Roots(b) && Issues(a + b) == Issues(a) + Issues(b)
  {
    if a == [] {
      assert a + b == b;
    } else {
      SumsJoin(a[1..], b);
      assert (a + b)[1..] == a[1..] + b;
    }
  }

  /** The greatest count a word of 64 bits holds, or less. */
  ghost function Capped(n: nat): nat {
    if n > 18446744073709551615 then 18446744073709551615 else n
  }

  lemma CappedAdds(a: nat, b: nat)
    ensures SaturatingAdd(Capped(a), b) == SaturatingAdd(Capped(a), Capped(b)) == Capped(a + b)
  {
  }

  /** `total` is what `before` and the answers add up to, in words of 64 bits. */
  ghost predicate AddsUp(before: Completion, answers: seq<Completion>, total: Completion) {
    && total.occurrences == Capped(before.occurrences + Occurrences(answers))
    && total.roots == Capped(before.roots + Roots(answers))
    && total.issues == Capped(before.issues + Issues(answers))
  }

  lemma AddsOneMore(before: Completion, done: Completion, answers: seq<Completion>, total: Completion)
    requires AddsUp(Accumulate(before, done), answers, total)
    ensures AddsUp(before, [done] + answers, total)
  {
    assert ([done] + answers)[1..] == answers;
  }

  lemma {:induction false} DetailPlanAddsUp(env: Env, token: Token, c: Candidate, outcome: DeleteOutcome,
                                            k: nat, round: nat, attempt: nat, total: Completion)
    requires 1 <= round <= MAX_COMPLETION_ROUNDS && 1 <= attempt <= COMPLETION_CALL_ATTEMPTS
    ensures var plan := DetailPlan(env, token, c, outcome, k, round, attempt, total);
            match plan.finish
            case Completed(rounds, sum) =>
              rounds == round - 1 + |Answered(plan.calls)| && AddsUp(total, Answered(plan.calls), sum)
            case _ => plan.finish.Broken?
    decreases MAX_COMPLETION_ROUNDS - round, COMPLETION_CALL_ATTEMPTS - attempt
  {
    var plan := DetailPlan(env, token, c, outcome, k, round, attempt, total);
    var call := Complete(token, c, outcome, env.completions(k));
    match env.completions(k)
    case None =>
      if attempt < COMPLETION_CALL_ATTEMPTS {
        DetailPlanAddsUp(env, token, c, outcome, k + 1, round, attempt + 1, total);
        assert plan.calls[1..] == DetailPlan(env, token, c, outcome, k + 1, round, attempt + 1, total).calls;
      }
    case Some(done) =>
      if done.remaining == 0 {
        assert Answered([call]) == [done] + Answered([]);
        AddsOneMore(total, done, [], Accumulate(total, done));
      } else if round < MAX_COMPLETION_ROUNDS {
        var rest := DetailPlan(env, token, c, outcome, k + 1, round + 1, 1, Accumulate(total, done));
        DetailPlanAddsUp(env, token, c, outcome, k + 1, round + 1, 1, Accumulate(total, done));
        assert plan.calls[1..] == rest.calls;
        if rest.finish.Completed? {
          AddsOneMore(total, done, Answered(rest.calls), rest.finish.total);
        }
      }
  }

  /** How a candidate's plan ends shows in its last call, and what it adds up to in all its answers. */
  ghost predicate EndsAsCalled(token: Token, c: Candidate, plan: Plan) {
    && plan.calls != []
    && var last := plan.calls[|plan.calls| - 1];
       && (plan.finish.Completed? <==> last.Complete? && last.completion.Some? && last.completion.value.remaining == 0)
       && (plan.finish.RetryRecorded? <==> last == Fail(token, c, true))
  }

  lemma PlanEnds(env: Env, w: World, token: Token, c: Candidate)
    ensures EndsAsCalled(token, c, CandidatePlan(env, w, token, c))
  {
    var outcome := if c.objectDeleteRequired && env.deletions(w.deletes).Some?
      then env.deletions(w.deletes).value else Deleted;
    CleanupEnds(env, token, c, outcome, w.completes);
    var call := Delete(token, OrEmpty(c.path), DeleteReply(env, w.deletes));
    EndsLater(token, c, call, DetailPlan(env, token, c, outcome, w.completes, 1, 1, NO_DETAILS));
    EndsLater(token, c, call, FailPlan(env, token, c, w.fails));
  }

  lemma CleanupEnds(env: Env, token: Token, c: Candidate, outcome: DeleteOutcome, k: nat)
    ensures EndsAsCalled(token, c, DetailPlan(env, token, c, outcome, k, 1, 1, NO_DETAILS))
  {
    var plan := DetailPlan(env, token, c, outcome, k, 1, 1, NO_DETAILS);
    CleanupStops(env, token, c, outcome, k);
    DetailPlanAddsUp(env, token, c, outcome, k, 1, 1, NO_DETAILS);
    var last := plan.calls[|plan.calls| - 1];
    assert last.completion == env.completions(k + |plan.calls| - 1);
  }

  lemma EndsLater(token: Token, c: Candidate, call: Event, plan: Plan)
    requires EndsAsCalled(token, c, plan)
    ensures EndsAsCalled(token, c, Prepend([call], plan))
  {
    var calls := [call] + plan.calls;
    assert calls[|calls| - 1] == plan.calls[|plan.calls| - 1];
  }

  lemma PlanAddsUp(env: Env, w: World, token: Token, c: Candidate)
    ensures var plan := CandidatePlan(env, w, token, c);
            match plan.finish
            case Completed(rounds, sum) =>
              rounds == |Answered(plan.calls)| && AddsUp(NO_DETAILS, Answered(plan.calls), sum)
            case RetryRecorded => Answered(plan.calls) == []
            case Broken => true
  {
    var plan := CandidatePlan(env, w, token, c);
    var outcome := if c.objectDeleteRequired && env.deletions(w.deletes).Some?
      then env.deletions(w.deletes).value else Deleted;
    var details := DetailPlan(env, token, c, outcome, w.completes, 1, 1, NO_DETAILS);
    DetailPlanAddsUp(env, token, c, outcome, w.completes, 1, 1, NO_DETAILS);
    match plan.finish
    case Completed(_, _) => assert plan.calls == details.calls || plan.calls[1..] == details.calls;
    case RetryRecorded => RetriesAnswerNothing(env, w, token, c);
    case Broken =>
  }

  lemma RetriesAnswerNothing(env: Env, w: World, token: Token, c: Candidate)
    requires CandidatePlan(env, w, token, c).finish.RetryRecorded?
    ensures Answered(CandidatePlan(env, w, token, c).calls) == []
  {
    var calls := CandidatePlan(env, w, token, c).calls;
    PlanEnds(env, w, token, c);
    PlanIsOrderly(env, w, token, c);
    assert calls[|calls| - 1].Fail?;
    NothingAnswered(calls);
  }
}
