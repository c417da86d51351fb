/** A whole garbage-collection run (crates/solver-worker/src/artifact_gc.rs). */
module GcRun {
  import opened Wrappers
  import opened GcModel
  import opened GcLeased
  import opened GcStaging
  import opened GcLog
  import opened GcDetails

  datatype Options = Options(batchSize: int, maxBatches: int, leaseSeconds: int, detailLimit: int, execute: bool)

  predicate ValidOptions(o: Options) {
    && 1 <= o.batchSize <= MAX_BATCH_SIZE
    && 1 <= o.maxBatches <= MAX_BATCHES
    && 1 <= o.leaseSeconds <= MAX_LEASE_SECONDS
    && 1 <= o.detailLimit <= MAX_DETAIL_LIMIT
  }

  /** The documented bounds. */
  ghost predicate WithinBounds(o: Options) {
    1 <= o.batchSize <= 500 && 1 <= o.maxBatches <= 100 && 1 <= o.leaseSeconds <= 3600 && 1 <= o.detailLimit <= 50000
  }

  datatype RunResult = Report(preview: seq<Candidate>, totals: Totals) | RunError

  // ---------------------------------------------------------------------
  // Batches
  // ---------------------------------------------------------------------

  /** The candidates of the first `n` claims, in order. */
  ghost function ClaimedTasks(env: Env, n: nat): seq<Task> {
    if n == 0 then []
    else ClaimedTasks(env, n - 1) + (match env.claims(n - 1) case None => [] case Some(claim) => ClaimTasks(claim))
  }

  /** Processes and logs one candidate. */
  method ProcessNext(env: Env, start: World, lease: Lease, c: Candidate, leaseSeconds: nat, before: Totals,
                     ghost base: Trace, ghost opening: Totals, ghost earlier: Log)
    returns (status: Status, w: World, current: Lease, totals: Totals, ghost log: Log)
    requires Working(env, start, lease) && Logged(env, base, start.trace, earlier)
    requires before == Tally(env, opening, earlier)
    ensures Stepped(env, start, w, status, lease, current) && Logged(env, base, w.trace, log)
    ensures log.Next? && log.earlier == earlier && log.last.status == status
    ensures log.last.token == lease.token && log.last.candidate == c
    ensures totals == Tally(env, opening, log)
  {
    ghost var calls;
    status, w, current, totals, calls := ProcessClaimedCandidate(env, start, lease, c, leaseSeconds, before);
    log := Next(earlier, Processed(lease.token, c, start, calls, status));
  }

  lemma TakeNext(known: seq<Task>, tasks: seq<Task>, i: nat)
    requires i < |tasks|
    ensures known + tasks[..i] + [tasks[i]] == known + tasks[..i + 1] <= known + tasks
  {
    assert tasks[..i + 1] == tasks[..i] + [tasks[i]];
  }

  /** The last candidate ended the run: its plan breaks, or its lease cannot be read. */
  ghost predicate GaveUp(t: Trace, log: Log) {
    EndedWith(log, Failed) || (EndedWith(log, BadLease) && Unreadable(t))
  }

  /** Where the candidate loop of a batch leaves the log: nothing more was claimed. */
  ghost predicate SameClaimed(a: Log, b: Log, size: int) {
    TasksClaimed(a) == TasksClaimed(b) && Batches(a) == Batches(b) && (AllSized(a, size) ==> AllSized(b, size))
  }

  /** The candidate loop of one claimed batch. */
  method ProcessBatch(env: Env, start: World, claim: Claim, leaseSeconds: nat, before: Totals,
                      ghost base: Trace, ghost opening: Totals, ghost earlier: Log, ghost size: int)
    returns (status: Status, w: World, totals: Totals, ghost log: Log)
    requires Working(env, start, claim.lease) && Logged(env, base, start.trace, earlier) && AllOk(earlier)
    requires before == Tally(env, opening, earlier)
    ensures Genuine(env, w) && Fenced(env.bucket, w.trace) && SameClaims(start, w)
    ensures Logged(env, base, w.trace, log) && SameClaimed(earlier, log, size)
    ensures totals == Tally(env, opening, log) && SameFrame(before, totals)
    ensures Tasks(log) <= Tasks(earlier) + ClaimTasks(claim)
    ensures status == LeaseLost <==> Lost(w.trace)
    ensures status == Ok ==> AllOk(log) && Tasks(log) == Tasks(earlier) + ClaimTasks(claim)
    ensures status == LeaseLost ==> EndedWith(log, LeaseLost)
    ensures status in {BadLease, Failed} ==> GaveUp(w.trace, log)
  {
    w := start;
    totals := before;
    log := earlier;
    var current := claim.lease;
    ghost var known, tasks := Tasks(earlier), ClaimTasks(claim);
    for i := 0 to |claim.items|
      invariant Working(env, w, current) && current.token == claim.lease.token && SameClaims(start, w)
      invariant Logged(env, base, w.trace, log) && AllOk(log) && SameClaimed(earlier, log, size)
      invariant Tasks(log) == known + tasks[..i]
      invariant totals == Tally(env, opening, log) && SameFrame(before, totals)
    {
      TakeNext(known, tasks, i);
      status, w, current, totals, log :=
        ProcessNext(env, w, current, claim.items[i], leaseSeconds, totals, base, opening, log);
      if status != Ok {
        return;
      }
    }
    status := Ok;
  }

  /** Every claim so far has been processed to the end. */
  ghost predicate Running(env: Env, options: Options, base: Trace, opening: Totals, w: World, totals: Totals,
                          log: Log)
  {
    && Genuine(env, w) && Fenced(env.bucket, w.trace) && !Lost(w.trace)
    && Logged(env, base, w.trace, log) && AllOk(log)
    && Tasks(log) == TasksClaimed(log) == ClaimedTasks(env, w.claims) && AllSized(log, options.batchSize)
    && totals == Tally(env, opening, log) && totals.batches == Batches(log) <= options.maxBatches
  }

  /** A lost lease leaves the last candidate unfinished. */
  ghost predicate HandedOff(env: Env, options: Options, base: Trace, opening: Totals, w: World, totals: Totals,
                            log: Log)
  {
    && Genuine(env, w) && Fenced(env.bucket, w.trace) && Lost(w.trace)
    && Logged(env, base, w.trace, log) && EndedWith(log, LeaseLost)
    && Tasks(log) <= TasksClaimed(log) == ClaimedTasks(env, w.claims) && AllSized(log, options.batchSize)
    && totals == Tally(env, opening, log).(leaseHandoffs := 1) && Batches(log) <= options.maxBatches
  }

  /** The last claim failed or returned more than was asked for. */
  ghost predicate ClaimBroke(options: Options, t: Trace) {
    t.Then? && t.event.Claimed? && (t.event.claim.None? || |t.event.claim.value.items| > options.batchSize)
  }

  /** The last claim found nothing. */
  ghost predicate NoMoreClaims(t: Trace) {
    t.Then? && t.event.Claimed? && t.event.claim.Some? && t.event.claim.value.items == []
  }

  /** What a run that stops with an error leaves: a claim went wrong after all candidates were
      dealt with, or the last candidate gave up. */
  ghost predicate Interrupted(env: Env, options: Options, base: Trace, w: World, log: Log) {
    && Genuine(env, w) && Fenced(env.bucket, w.trace)
    && Logged(env, base, w.trace, log) && Tasks(log) <= ClaimedTasks(env, w.claims)
    && ((ClaimBroke(options, w.trace) && AllOk(log)) || GaveUp(w.trace, log))
  }

  ghost predicate SameStale(v: World, w: World) {
    v.staleClaims == w.staleClaims && v.staleCompletes == w.staleCompletes
  }

  datatype BatchEnd = MoreToDo | Drained | LeaseGone | Stopped

  /** A claim is one more event, and what it holds is claimed. */
  lemma ClaimIsLogged(env: Env, base: Trace, w: World, log: Log)
    requires Genuine(env, w) && Fenced(env.bucket, w.trace) && !Lost(w.trace) && Logged(env, base, w.trace, log)
    requires TasksClaimed(log) == ClaimedTasks(env, w.claims)
    ensures var v := CallClaim(env, w);
            && Genuine(env, v) && Fenced(env.bucket, v.trace) && !Lost(v.trace) && Logged(env, base, v.trace, log)
            && TasksClaimed(log) <= ClaimedTasks(env, v.claims)
            && (env.claims(w.claims).Some? ==>
                  var claim := env.claims(w.claims).value;
                  && Working(env, v, claim.lease) && Logged(env, base, v.trace, Batch(log, v, claim))
                  && TasksClaimed(Batch(log, v, claim)) == ClaimedTasks(env, v.claims))
  {
    LoggedLater(env, base, w.trace, Claimed(env.claims(w.claims)), log);
  }

  /** Processes a claim that was just made, and counts it as a batch. */
  method RunClaim(env: Env, start: World, claim: Claim, options: Options, before: Totals,
                  ghost base: Trace, ghost opening: Totals, ghost earlier: Log)
    returns (end: BatchEnd, w: World, totals: Totals, ghost log: Log)
    requires ValidOptions(options) && Working(env, start, claim.lease)
    requires Logged(env, base, start.trace, Batch(earlier, start, claim))
    requires AllOk(earlier) && Tasks(earlier) == TasksClaimed(earlier) && AllSized(earlier, options.batchSize)
    requires TasksClaimed(Batch(earlier, start, claim)) == ClaimedTasks(env, start.claims)
    requires |claim.items| <= options.batchSize
    requires before == Tally(env, opening, earlier) && opening.leaseHandoffs == 0
    requires before.batches == Batches(earlier) < options.maxBatches
    ensures end != Drained && SameStale(start, w)
    ensures end == MoreToDo ==>
      Running(env, options, base, opening, w, totals, log) && totals.batches == before.batches + 1
    ensures end == LeaseGone ==> HandedOff(env, options, base, opening, w, totals, log)
    ensures end == Stopped ==> Interrupted(env, options, base, w, log)
  {
    totals := CountBatch(before, |claim.items|);
    var status;
    status, w, totals, log := ProcessBatch(env, start, claim, options.leaseSeconds, totals, base, opening,
                                           Batch(earlier, start, claim), options.batchSize);
    end := match status case Ok => MoreToDo case LeaseLost => LeaseGone case _ => Stopped;
    if status == LeaseLost {
      totals := totals.(leaseHandoffs := SaturatingAdd(totals.leaseHandoffs, 1));
    }
  }

  /** One turn of the claim loop. */
  method RunBatch(env: Env, start: World, options: Options, before: Totals,
                  ghost base: Trace, ghost opening: Totals, ghost earlier: Log)
    returns (end: BatchEnd, w: World, totals: Totals, ghost log: Log)
    requires ValidOptions(options) && Running(env, options, base, opening, start, before, earlier)
    requires before.batches < options.maxBatches && opening.leaseHandoffs == 0
    ensures end in {MoreToDo, Drained} ==> Running(env, options, base, opening, w, totals, log)
    ensures end == MoreToDo ==> totals.batches == before.batches + 1
    ensures end == Drained ==> NoMoreClaims(w.trace)
    ensures end == LeaseGone ==> HandedOff(env, options, base, opening, w, totals, log)
    ensures end == Stopped ==> Interrupted(env, options, base, w, log)
    ensures SameStale(start, w)
  {
    totals := before;
    log := earlier;
    var answer := env.claims(start.claims);
    w := CallClaim(env, start);
    ClaimIsLogged(env, base, start, earlier);
    if answer.None? || |answer.value.items| > options.batchSize {
      return Stopped, w, totals, log;
    }
    var claim := answer.value;
    if claim.items == [] {
      assert ClaimTasks(claim) == [];
      return Drained, w, totals, log;
    }
    end, w, totals, log := RunClaim(env, w, claim, options, totals, base, opening, log);
  }

  /** The claim loop of an executing run. */
  method RunBatches(env: Env, start: World, options: Options, before: Totals)
    returns (end: BatchEnd, w: World, totals: Totals, ghost log: Log)
    requires ValidOptions(options)
    requires Genuine(env, start) && Fenced(env.bucket, start.trace) && !Lost(start.trace) && start.claims == 0
    requires before.batches == 0 && before.leaseHandoffs == 0
    ensures end != MoreToDo && SameStale(start, w)
    ensures end == Drained ==>
      && Running(env, options, start.trace, before, w, totals, log)
      && (totals.batches == options.maxBatches || NoMoreClaims(w.trace))
    ensures end == LeaseGone ==> HandedOff(env, options, start.trace, before, w, totals, log)
    ensures end == Stopped ==> Interrupted(env, options, start.trace, w, log)
  {
    w := start;
    totals := before;
    log := Empty;
    end := MoreToDo;
    while totals.batches < options.maxBatches
      invariant Running(env, options, start.trace, before, w, totals, log) && SameStale(start, w)
      decreases options.maxBatches - totals.batches
    {
      end, w, totals, log := RunBatch(env, w, options, totals, start.trace, before, log);
      if end != MoreToDo {
        return;
      }
    }
    end := Drained;
  }

  // ---------------------------------------------------------------------
  // The whole run
  // ---------------------------------------------------------------------

  /** Every run, however it ends. Readings and answers are the environment's and every call was
      fenced when it was made. Staging comes first, up to `midway`, and only deletes; from there on
      the log accounts for the trace: its candidates come in the order and under the tokens of the
      claims, each begun where the one before it ended, with the calls of its lease-free plan. */
  ghost predicate RunTrace(env: Env, w: World, midway: World, log: Log) {
    && Genuine(env, w) && Fenced(env.bucket, w.trace)
    && Genuine(env, midway) && Fenced(env.bucket, midway.trace) && IsPrefix(midway.trace, w.trace)
    && OnlyDeletes(Calls(midway.trace)) && midway.claims == 0 && SameStale(midway, w)
    && Logged(env, midway.trace, w.trace, log) && Tasks(log) <= ClaimedTasks(env, w.claims)
  }

  /** What the totals of a successful executing run say. */
  ghost predicate Balanced(t: Totals) {
    && t.leaseHandoffs <= 1
    && (t.leaseHandoffs == 0 && t.stagingHandoffs == 0 ==> Settled(t, t.candidates))
    && (t.stagingHandoffs > 0 ==> t.candidates == 0 && Settled(t, 0))
    && (t.leaseHandoffs == 1 ==>
          && t.completed + t.retryableFailures < t.candidates
          && t.completed <= t.objectsDeleted + t.objectsMissing + t.detailCleanups <= t.completed + 1)
  }

  /** A successful executing run: the totals are those that staging opens with and the log adds up
      to, with the handoff if the lease was lost. So they balance, they count the claimed and the
      dealt-with candidates and the deletes of the trace, and limits hold. */
  ghost predicate RunTotals(env: Env, options: Options, totals: Totals, w: World, midway: World, log: Log) {
    && totals.stagingHandoffs == (if Lost(w.trace) && log.Empty? then 1 else 0)
    && totals.leaseHandoffs == (if Lost(w.trace) && !log.Empty? then 1 else 0)
    && totals == Tally(env, Opening(midway.trace, totals.stagingHandoffs), log).(leaseHandoffs := totals.leaseHandoffs)
    && Balanced(totals)
    && totals.batches == Batches(log) <= options.maxBatches
    && totals.candidates == |ClaimedTasks(env, w.claims)| <= options.maxBatches * options.batchSize
    && totals.completed + totals.retryableFailures == |Tasks(log)| - totals.leaseHandoffs
    && DeletesCounted(totals, Calls(w.trace))
  }

  /** The detail counters: the sums of the answers that settled candidates received. */
  lemma RunDetails(env: Env, options: Options, totals: Totals, w: World, midway: World, log: Log)
    requires RunTotals(env, options, totals, w, midway, log) && Logged(env, midway.trace, w.trace, log)
    ensures DetailsLogged(totals, log)
  {
    var opening := Opening(midway.trace, totals.stagingHandoffs);
    OpeningIsUnworked(midway.trace, totals.stagingHandoffs);
    TallyCountsDetails(env, midway.trace, w.trace, opening, log);
    DetailsOnly(Tally(env, opening, log), totals, log);
  }

  lemma DetailsOnly(t: Totals, r: Totals, log: Log)
    requires DetailsLogged(t, log) && r == t.(leaseHandoffs := r.leaseHandoffs)
    ensures DetailsLogged(r, log)
  {
  }

  /** It ends by itself only when limits are reached or nothing is left, and then every claimed
      candidate was dealt with to the end; a handoff leaves only the last candidate unfinished, or
      none when staging handed off. */
  ghost predicate RunEnd(env: Env, options: Options, totals: Totals, w: World, midway: World, log: Log) {
    if !Lost(w.trace) then
      && (totals.stagingSetsCleaned == options.maxBatches || NoMoreStale(midway.trace))
      && AllOk(log) && Tasks(log) == ClaimedTasks(env, w.claims)
      && (totals.batches == options.maxBatches || NoMoreClaims(w.trace))
    else if totals.stagingHandoffs > 0 then log.Empty? && w == midway
    else EndedWith(log, LeaseLost)
  }

  /** A run that ends in error has a cause that the trace or the log shows. */
  ghost predicate RunBroke(env: Env, options: Options, w: World, midway: World, log: Log) {
    || (StagingBroke(env.bucket, w.trace) && log.Empty? && w == midway)
    || Interrupted(env, options, midway.trace, w, log)
  }

  lemma OpeningIsUnworked(t: Trace, handoffs: nat)
    ensures Unworked(Opening(t, handoffs)) && DeletesCounted(Opening(t, handoffs), Calls(t))
  {
  }

  lemma DrainedTotals(env: Env, options: Options, midway: World, w: World, totals: Totals, log: Log)
    requires ValidOptions(options) && midway.claims == 0
    requires Running(env, options, midway.trace, Opening(midway.trace, 0), w, totals, log)
    ensures RunTotals(env, options, totals, w, midway, log)
  {
    var opening := Opening(midway.trace, 0);
    OpeningIsUnworked(midway.trace, 0);
    WithinLimits(log, options.batchSize, options.maxBatches);
    TallySettles(env, midway.trace, w.trace, opening, log);
    TallyCountsDeletes(env, midway.trace, w.trace, opening, log);
  }

  lemma HandedOffTotals(env: Env, options: Options, midway: World, w: World, totals: Totals, log: Log)
    requires ValidOptions(options)
    requires HandedOff(env, options, midway.trace, Opening(midway.trace, 0), w, totals, log)
    ensures RunTotals(env, options, totals, w, midway, log)
  {
    var opening := Opening(midway.trace, 0);
    OpeningIsUnworked(midway.trace, 0);
    WithinLimits(log, options.batchSize, options.maxBatches);
    TallyEnds(env, midway.trace, w.trace, opening, log, LeaseLost);
    TallyCountsDeletes(env, midway.trace, w.trace, opening, log);
  }

  /** The claim loop after staging. */
  method RunAfterStaging(env: Env, options: Options, midway: World, before: Totals)
    returns (result: RunResult, w: World, ghost log: Log)
    requires ValidOptions(options) && InStaging(env, midway, before) && !Lost(midway.trace) && midway.claims == 0
    requires StagingOnly(ZERO_TOTALS, before) && before.stagingHandoffs == 0
    requires before.stagingSetsCleaned == options.maxBatches || NoMoreStale(midway.trace)
    ensures RunTrace(env, w, midway, log)
    ensures result.Report? ==>
      RunTotals(env, options, result.totals, w, midway, log) && RunEnd(env, options, result.totals, w, midway, log)
    ensures result.RunError? ==> Interrupted(env, options, midway.trace, w, log)
  {
    StagedIsOpening(env, midway, before);
    var end, totals;
    end, w, totals, log := RunBatches(env, midway, options, before);
    LoggedIsLater(env, midway.trace, w.trace, log);
    match end {
      case Drained => DrainedTotals(env, options, midway, w, totals, log);
      case LeaseGone => HandedOffTotals(env, options, midway, w, totals, log);
      case _ =>
    }
    result := if end != Stopped then Report([], totals) else RunError;
  }

  lemma FreshRun(env: Env, w: World, log: Log)
    requires IsFresh(w) && log.Empty?
    ensures RunTrace(env, w, w, log) && RunTrace(env, CallPreview(w), w, log)
  {
    assert Genuine(env, w);
  }

  /** A run that goes no further than staging. */
  lemma EndsInStaging(env: Env, w: World, totals: Totals, log: Log)
    requires InStaging(env, w, totals) && w.claims == 0 && log.Empty?
    ensures RunTrace(env, w, w, log)
  {
  }

  lemma StagingHandsOff(env: Env, options: Options, w: World, totals: Totals, log: Log)
    requires ValidOptions(options) && InStaging(env, w, totals) && w.claims == 0 && log.Empty?
    requires StagingOnly(ZERO_TOTALS, totals) && totals.stagingHandoffs == 1 && Lost(w.trace)
    ensures RunTotals(env, options, totals, w, w, log) && RunEnd(env, options, totals, w, w, log)
  {
    StagedIsOpening(env, w, totals);
    OpeningIsUnworked(w.trace, 1);
    TimesGrows(0, options.maxBatches, options.batchSize);
  }

  /** An executing run: staging, then the claims. */
  method ExecuteRun(env: Env, options: Options, ghost none: Log)
    returns (result: RunResult, w: World, ghost midway: World, ghost log: Log)
    requires ValidOptions(options) && none.Empty?
    ensures RunTrace(env, w, midway, log)
    ensures result.Report? ==>
      RunTotals(env, options, result.totals, w, midway, log) && RunEnd(env, options, result.totals, w, midway, log)
    ensures result.RunError? ==> RunBroke(env, options, w, midway, log)
  {
    var ok, totals;
    ok, w, totals := Stage(env, options.maxBatches);
    midway, log := w, none;
    EndsInStaging(env, w, totals, log);
    if !ok {
      return RunError, w, midway, log;
    }
    if totals.stagingHandoffs > 0 {
      StagingHandsOff(env, options, w, totals, log);
      return Report([], totals), w, midway, log;
    }
    result, w, log := RunAfterStaging(env, options, w, totals);
  }

  /** `run_artifact_gc`, for every backend and every clock. */
  method RunArtifactGc(env: Env, options: Options)
    returns (result: RunResult, w: World, ghost midway: World, ghost log: Log)
    ensures RunTrace(env, w, midway, log)
    ensures result.Report? && options.execute ==>
      RunTotals(env, options, result.totals, w, midway, log) && RunEnd(env, options, result.totals, w, midway, log)
    ensures result.Report? && options.execute ==> DetailsLogged(result.totals, log)
    ensures result.RunError? && WithinBounds(options) && options.execute ==> RunBroke(env, options, w, midway, log)
    ensures result.RunError? && WithinBounds(options) && !options.execute ==>
      env.preview.None? || |env.preview.value| > options.batchSize
    ensures result.Report? && !options.execute ==>
      && w.trace.Then? && w.trace.event == Previewed && w.trace.prior.Start? && env.preview == Some(result.preview)
      && |result.preview| <= options.batchSize && result.totals == ZERO_TOTALS.(candidates := |result.preview|)
    ensures !WithinBounds(options) ==> result.RunError? && IsFresh(w)
  {
    w := Begin();
    midway, log := w, Empty;
    FreshRun(env, w, log);
    if !ValidOptions(options) {
      return RunError, w, midway, log;
    }
    if options.execute {
      result, w, midway, log := ExecuteRun(env, options, log);
      if result.Report? {
        RunDetails(env, options, result.totals, w, midway, log);
      }
      return;
    }
    w := CallPreview(w);
    if env.preview.None? || |env.preview.value| > options.batchSize {
      return RunError, w, midway, log;
    }
    result := Report(env.preview.value, ZERO_TOTALS.(candidates := |env.preview.value|));
  }
}
