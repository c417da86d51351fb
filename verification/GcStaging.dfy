/** Reconciling stale write sets, the first part of a garbage-collection run
    (crates/solver-worker/src/artifact_gc.rs). */
module GcStaging {
  import opened Wrappers
  import opened GcModel
  import opened GcLeased

  /** Only the staging counters differ. */
  ghost predicate StagingOnly(a: Totals, b: Totals) {
    b == a.(stagingSetsCleaned := b.stagingSetsCleaned, stagingDeleted := b.stagingDeleted,
            stagingMissing := b.stagingMissing, stagingHandoffs := b.stagingHandoffs)
  }

  const MAX_WRITE_SET_ITEMS := 500
  const MAX_STAGED := MAX_BATCHES * MAX_WRITE_SET_ITEMS

  /** The staging counters are what the trace shows. */
  ghost predicate StagedExactly(t: Trace, totals: Totals) {
    && totals.stagingDeleted == GoneCount(Calls(t), Deleted)
    && totals.stagingMissing == GoneCount(Calls(t), Missing)
    && totals.stagingSetsCleaned == SetsCompleted(t)
  }

  predicate AcceptableStale(claim: StaleClaim) {
    |claim.writeSets| == 1 && claim.lease.deadline.Some?
    && claim.writeSets[0].status == "cleanup_pending" && |claim.writeSets[0].items| <= MAX_WRITE_SET_ITEMS
  }

  /** Why staging ended with an error: a failed or malformed claim, a foreign bucket, a failed
      delete or a refused completion. */
  ghost predicate StagingBroke(bucket: string, t: Trace) {
    && t.Then?
    && (|| t.event == ClaimedStale(None)
        || (t.event.ClaimedStale? && t.event.stale.Some? && t.event.stale.value.writeSets != []
            && (|t.event.stale.value.writeSets| > 1 || t.event.stale.value.lease.deadline.None?
                || !MayBeCleaned(t.event.stale.value.writeSets[0])))
        || ForeignNext(bucket, StagingState(t))
        || (t.event.Delete? && t.event.answer == DeleteError)
        || (t.event.CompletedStale? && !t.event.accepted))
  }

  ghost predicate ForeignNext(bucket: string, s: Staging) {
    s.Open? && s.gone < |s.writeSet.items| && s.writeSet.items[s.gone].bucket != bucket
  }

  /** Staging had nothing more to claim. */
  ghost predicate NoMoreStale(t: Trace) {
    t.Then? && t.event.ClaimedStale? && t.event.stale.Some? && t.event.stale.value.writeSets == []
  }

  /** Only the two counters of deleted and missing locators differ, by `n` at most. */
  ghost predicate LocatorsOnly(a: Totals, b: Totals, n: nat) {
    && b == a.(stagingDeleted := b.stagingDeleted, stagingMissing := b.stagingMissing)
    && b.stagingDeleted + b.stagingMissing <= a.stagingDeleted + a.stagingMissing + n
  }

  function CountStaged(totals: Totals, answer: DeleteAnswer): Totals {
    match answer
    case Gone(Deleted) => totals.(stagingDeleted := SaturatingAdd(totals.stagingDeleted, 1))
    case Gone(Missing) => totals.(stagingMissing := SaturatingAdd(totals.stagingMissing, 1))
    case _ => totals
  }

  lemma StagedOneMore(t: Trace, totals: Totals, token: Token, path: string, answer: DeleteAnswer)
    requires StagedExactly(t, totals) && totals.stagingDeleted + totals.stagingMissing < MAX_U64
    ensures StagedExactly(Then(t, Delete(token, path, answer)), CountStaged(totals, answer))
    ensures LocatorsOnly(totals, CountStaged(totals, answer), 1)
  {
    GoneCountSnoc(Calls(t), Delete(token, path, answer), Deleted);
    GoneCountSnoc(Calls(t), Delete(token, path, answer), Missing);
    var next := CountStaged(totals, answer);
    match answer
    case Gone(Deleted) => assert next.stagingDeleted == totals.stagingDeleted + 1;
    case Gone(Missing) => assert next.stagingMissing == totals.stagingMissing + 1;
    case _ => assert next == totals;
  }

  ghost predicate OnlyDeletes(calls: seq<Event>) {
    forall i :: 0 <= i < |calls| ==> calls[i].Delete?
  }

  /** Staging so far: a fenced trace of the environment that made no calls but deletes, counted
      exactly. */
  ghost predicate InStaging(env: Env, w: World, totals: Totals) {
    Genuine(env, w) && Fenced(env.bucket, w.trace) && OnlyDeletes(Calls(w.trace)) && StagedExactly(w.trace, totals)
  }

  /** A locator's delete, right after its deadline check. */
  lemma LocatorStep(env: Env, w: World, totals: Totals, lease: Lease, writeSet: WriteSet, i: nat)
    requires InStaging(env, w, totals) && !Lost(w.trace)
    requires w.trace.Then? && w.trace.event.Clock? && w.trace.event.site == StagingDelete
    requires lease.deadline.Some? && w.trace.event.at <= lease.deadline.value
    requires StagingState(w.trace) == Open(lease, writeSet, i) && i < |writeSet.items|
    requires writeSet.items[i].bucket == env.bucket && totals.stagingDeleted + totals.stagingMissing < MAX_U64
    ensures var answer := TimedDelete(env, w.deletes);
            InStaging(env, CallDelete(env, w, lease.token, writeSet.items[i].path), CountStaged(totals, answer))
  {
    var path, answer := writeSet.items[i].path, TimedDelete(env, w.deletes);
    StagedOneMore(w.trace, totals, lease.token, path, answer);
    assert CallDelete(env, w, lease.token, path).trace == Then(w.trace, Delete(lease.token, path, answer));
  }

  /** Bucket check, deadline check and timed delete of one locator. */
  method DeleteLocator(env: Env, start: World, lease: Lease, writeSet: WriteSet, i: nat, before: Totals)
    returns (status: Status, w: World, totals: Totals)
    requires InStaging(env, start, before) && !Lost(start.trace)
    requires StagingState(start.trace) == Open(lease, writeSet, i) && lease.deadline.Some? && i < |writeSet.items|
    requires before.stagingDeleted + before.stagingMissing < MAX_U64
    ensures InStaging(env, w, totals) && LocatorsOnly(before, totals, 1) && w.claims == start.claims
    ensures status != BadLease && (status == LeaseLost <==> Lost(w.trace))
    ensures status == Ok ==> StagingState(w.trace) == Open(lease, writeSet, i + 1)
    ensures status == Failed ==> StagingBroke(env.bucket, w.trace)
  {
    w := start;
    totals := before;
    var item := writeSet.items[i];
    if item.bucket != env.bucket {
      return Failed, w, totals;
    }
    var now := env.clock(w.ticks);
    w := ReadClock(env, w, StagingDelete);
    assert InStaging(env, w, totals);
    if lease.deadline.value < now {
      return LeaseLost, w, totals;
    }
    assert !Lost(w.trace);
    var answer := TimedDelete(env, w.deletes);
    LocatorStep(env, w, totals, lease, writeSet, i);
    StagedOneMore(w.trace, totals, lease.token, item.path, answer);
    w := CallDelete(env, w, lease.token, item.path);
    totals := CountStaged(totals, answer);
    status := match answer case Gone(_) => Ok case DeleteError => Failed case TimedOut => LeaseLost;
  }

  /** Deletes the locators of one claimed write set in order; `Ok` means all are gone. */
  method DeleteWriteSet(env: Env, start: World, lease: Lease, writeSet: WriteSet, before: Totals)
    returns (status: Status, w: World, totals: Totals)
    requires InStaging(env, start, before) && !Lost(start.trace)
    requires StagingState(start.trace) == Open(lease, writeSet, 0) && lease.deadline.Some?
    requires before.stagingDeleted + before.stagingMissing + |writeSet.items| <= MAX_U64
    ensures InStaging(env, w, totals) && LocatorsOnly(before, totals, |writeSet.items|) && w.claims == start.claims
    ensures status != BadLease && (status == LeaseLost <==> Lost(w.trace))
    ensures status == Ok ==> StagingState(w.trace) == Open(lease, writeSet, |writeSet.items|)
    ensures status == Failed ==> StagingBroke(env.bucket, w.trace)
  {
    w := start;
    totals := before;
    for i := 0 to |writeSet.items|
      invariant InStaging(env, w, totals) && !Lost(w.trace) && w.claims == start.claims
      invariant StagingState(w.trace) == Open(lease, writeSet, i)
      invariant LocatorsOnly(before, totals, i)
    {
      status, w, totals := DeleteLocator(env, w, lease, writeSet, i, totals);
      if status != Ok {
        return;
      }
    }
    status := Ok;
  }

  /** Completes a write set whose locators are all gone, while the lease still holds. */
  method CompleteWriteSet(env: Env, start: World, lease: Lease, writeSet: WriteSet, before: Totals)
    returns (status: Status, w: World, totals: Totals)
    requires InStaging(env, start, before) && !Lost(start.trace) && before.stagingSetsCleaned < MAX_U64
    requires StagingState(start.trace) == Open(lease, writeSet, |writeSet.items|) && lease.deadline.Some?
    ensures InStaging(env, w, totals) && w.claims == start.claims
    ensures status != BadLease && (status == LeaseLost <==> Lost(w.trace))
    ensures totals == if status == Ok then before.(stagingSetsCleaned := before.stagingSetsCleaned + 1) else before
    ensures status == Failed ==> StagingBroke(env.bucket, w.trace)
  {
    totals := before;
    var now := env.clock(start.ticks);
    w := ReadClock(env, start, StagingComplete);
    assert InStaging(env, w, totals);
    if lease.deadline.value <= now {
      return LeaseLost, w, totals;
    }
    assert !Lost(w.trace);
    var accepted := env.staleCompletions(w.staleCompletes);
    w := CallCompleteStale(env, w, writeSet.id, lease.token);
    if !accepted {
      return Failed, w, totals;
    }
    status := Ok;
    totals := totals.(stagingSetsCleaned := SaturatingAdd(totals.stagingSetsCleaned, 1));
  }

  /** One write set that was just claimed: all locators, then its completion while the lease still
      holds. */
  method ReconcileOne(env: Env, start: World, claim: StaleClaim, before: Totals)
    returns (status: Status, w: World, totals: Totals)
    requires InStaging(env, start, before) && !Lost(start.trace) && AcceptableStale(claim)
    requires StagingState(start.trace) == Open(claim.lease, claim.writeSets[0], 0)
    requires before.stagingDeleted + before.stagingMissing + MAX_WRITE_SET_ITEMS <= MAX_U64
    requires before.stagingSetsCleaned < MAX_U64
    ensures InStaging(env, w, totals) && w.claims == start.claims
    ensures LocatorsOnly(before, totals.(stagingSetsCleaned := before.stagingSetsCleaned), MAX_WRITE_SET_ITEMS)
    ensures status != BadLease && (status == LeaseLost <==> Lost(w.trace))
    ensures status == Ok ==> totals.stagingSetsCleaned == before.stagingSetsCleaned + 1
    ensures status == Failed ==> StagingBroke(env.bucket, w.trace)
  {
    status, w, totals := DeleteWriteSet(env, start, claim.lease, claim.writeSets[0], before);
    if status == Ok {
      status, w, totals := CompleteWriteSet(env, w, claim.lease, claim.writeSets[0], totals);
    }
  }

  /** `reconcile_stale_write_sets`: `ok` covers both the normal end and a handoff, which the
      handoff counter tells apart. */
  method ReconcileStaleWriteSets(env: Env, start: World, maxBatches: nat, before: Totals)
    returns (ok: bool, w: World, totals: Totals)
    requires InStaging(env, start, before) && !Lost(start.trace) && before.stagingHandoffs == 0
    requires maxBatches <= MAX_BATCHES
    requires before.stagingDeleted == before.stagingMissing == before.stagingSetsCleaned == 0
    ensures InStaging(env, w, totals) && w.claims == start.claims
    ensures StagingOnly(before, totals) && totals.stagingHandoffs == (if ok && Lost(w.trace) then 1 else 0)
    ensures totals.stagingDeleted + totals.stagingMissing <= MAX_STAGED
    ensures ok && !Lost(w.trace) ==> totals.stagingSetsCleaned == maxBatches || NoMoreStale(w.trace)
    ensures !ok ==> StagingBroke(env.bucket, w.trace)
  {
    w := start;
    totals := before;
    for batch := 0 to maxBatches
      invariant InStaging(env, w, totals) && !Lost(w.trace) && w.claims == start.claims
      invariant StagingOnly(before, totals) && totals.stagingHandoffs == 0
      invariant totals.stagingSetsCleaned == batch
      invariant totals.stagingDeleted + totals.stagingMissing <= batch * MAX_WRITE_SET_ITEMS
    {
      var answer := env.staleClaims(w.staleClaims);
      w := CallClaimStale(env, w);
      assert InStaging(env, w, totals);
      if answer.None? {
        return false, w, totals;
      }
      var claim := answer.value;
      if claim.writeSets == [] {
        return true, w, totals;
      }
      if !AcceptableStale(claim) {
        return false, w, totals;
      }
      var status;
      status, w, totals := ReconcileOne(env, w, claim, totals);
      if status == LeaseLost {
        totals := totals.(stagingHandoffs := 1);
        return true, w, totals;
      }
      if status != Ok {
        return false, w, totals;
      }
    }
    ok := true;
  }

  // ---------------------------------------------------------------------
  // The start of a run
  // ---------------------------------------------------------------------

  method Begin() returns (w: World)
    ensures IsFresh(w)
  {
    w := World(Start, 0, 0, 0, 0, 0, 0, 0, 0);
  }

  lemma StagingBegins(env: Env, w: World)
    requires IsFresh(w)
    ensures InStaging(env, w, ZERO_TOTALS) && !Lost(w.trace) && w.claims == 0
  {
    assert Answers([]) == [];
  }

  method BeginStaging(env: Env) returns (w: World, totals: Totals)
    ensures InStaging(env, w, totals) && !Lost(w.trace) && w.claims == 0 && totals == ZERO_TOTALS
  {
    w := Begin();
    StagingBegins(env, w);
    totals := ZERO_TOTALS;
  }

  /** Staging from the start of a run. */
  method Stage(env: Env, maxBatches: nat) returns (ok: bool, w: World, totals: Totals)
    requires maxBatches <= MAX_BATCHES
    ensures InStaging(env, w, totals) && w.claims == 0 && StagingOnly(ZERO_TOTALS, totals)
    ensures totals.stagingHandoffs == (if ok && Lost(w.trace) then 1 else 0)
    ensures ok && !Lost(w.trace) ==> totals.stagingSetsCleaned == maxBatches || NoMoreStale(w.trace)
    ensures !ok ==> StagingBroke(env.bucket, w.trace)
  {
    var start, none := BeginStaging(env);
    ok, w, totals := ReconcileStaleWriteSets(env, start, maxBatches, none);
  }

  /** The totals of a run that has done nothing but staging, read off the trace. */
  ghost function Opening(t: Trace, handoffs: nat): Totals {
    ZERO_TOTALS.(stagingSetsCleaned := SetsCompleted(t), stagingDeleted := GoneCount(Calls(t), Deleted),
                 stagingMissing := GoneCount(Calls(t), Missing), stagingHandoffs := handoffs)
  }

  lemma StagedIsOpening(env: Env, w: World, totals: Totals)
    requires InStaging(env, w, totals) && StagingOnly(ZERO_TOTALS, totals)
    ensures totals == Opening(w.trace, totals.stagingHandoffs)
  {
  }
}
