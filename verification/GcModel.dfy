/** Data, backend answers and call traces of artifact garbage collection
    (crates/solver-worker/src/artifact_gc.rs).

    The backend and the clock are arbitrary: an `Env` holds one answer stream per kind of call,
    and every property is stated for all of them. A `World` records how far each stream has been
    read and the trace of calls made so far. */
module GcModel {
  import opened Wrappers

  const MAX_U64: nat := 0xFFFF_FFFF_FFFF_FFFF
  const MAX_BATCH_SIZE := 500
  const MAX_BATCHES := 100
  const MAX_LEASE_SECONDS := 3600
  const MAX_DETAIL_LIMIT := 50000
  const MAX_COMPLETION_ROUNDS: nat := 10000
  const COMPLETION_CALL_ATTEMPTS: nat := 3
  const NANOS_PER_SECOND := 1000000000

  type Token = nat
  /** Nanoseconds since some epoch. */
  type Instant = int

  function SaturatingAdd(a: nat, b: nat): nat {
    if a + b > MAX_U64 then MAX_U64 else a + b
  }

  // ---------------------------------------------------------------------
  // Records
  // ---------------------------------------------------------------------

  datatype Phase = ObjectDelete | DetailCleanup

  datatype Candidate = Candidate(
    artifactId: nat,
    bucket: Option<string>,
    path: Option<string>,
    role: string,
    lifecycle: string,
    phase: Phase,
    objectDeleteRequired: bool,
    checksum: string,
    expiresAt: string)

  /** A missing deadline stands for one that does not parse. */
  datatype Lease = Lease(token: Token, deadline: Option<Instant>)

  datatype Claim = Claim(lease: Lease, items: seq<Candidate>)

  datatype Completion = Completion(remaining: nat, occurrences: nat, roots: nat, issues: nat)

  datatype StaleItem = StaleItem(bucket: string, path: string)

  datatype WriteSet = WriteSet(id: nat, status: string, items: seq<StaleItem>)

  datatype StaleClaim = StaleClaim(lease: Lease, writeSets: seq<WriteSet>)

  datatype DeleteOutcome = Deleted | Missing

  /** What became of an object deletion; `TimedOut` is the caller's timer firing first. */
  datatype DeleteAnswer = Gone(outcome: DeleteOutcome) | DeleteError | TimedOut

  datatype Totals = Totals(
    batches: nat,
    candidates: nat,
    objectsDeleted: nat,
    objectsMissing: nat,
    detailCleanups: nat,
    completed: nat,
    retryableFailures: nat,
    completionRounds: nat,
    deletedOccurrences: nat,
    deletedRoots: nat,
    deletedIssues: nat,
    leaseHandoffs: nat,
    stagingSetsCleaned: nat,
    stagingDeleted: nat,
    stagingMissing: nat,
    stagingHandoffs: nat)

  const ZERO_TOTALS := Totals(0, 0, 0, 0, 0, 0, 0, 0, 0, 0, 0, 0, 0, 0, 0, 0)

  // ---------------------------------------------------------------------
  // Candidate validation
  // ---------------------------------------------------------------------

  /** The characters with the Unicode White_Space property. */
  predicate IsWhitespace(c: char) {
    var u := c as int;
    || 0x09 <= u <= 0x0D || u == 0x20 || u == 0x85 || u == 0xA0 || u == 0x1680
    || 0x2000 <= u <= 0x200A || u == 0x2028 || u == 0x2029 || u == 0x202F || u == 0x205F || u == 0x3000
  }

  function Trim(s: string): string {
    if s != "" && IsWhitespace(s[0]) then Trim(s[1..])
    else if s != "" && IsWhitespace(s[|s| - 1]) then Trim(s[..|s| - 1])
    else s
  }

  /** No '/'-separated segment of `s`, whose current segment began with `segment`, is empty or a dot name. */
  predicate CleanSegments(s: string, segment: string) {
    if s == "" then segment !in ["", ".", ".."]
    else if s[0] == '/' then segment !in ["", ".", ".."] && CleanSegments(s[1..], "")
    else CleanSegments(s[1..], segment + [s[0]])
  }

  predicate ValidStoragePath(raw: string) {
    var path := Trim(raw);
    path != "" && path[0] != '/' && '\\' !in path && CleanSegments(path, "")
  }

  predicate IsHexDigit(c: char) {
    '0' <= c <= '9' || 'a' <= c <= 'f' || 'A' <= c <= 'F'
  }

  function OrEmpty(s: Option<string>): string {
    if s.Some? then s.value else ""
  }

  predicate ValidCandidate(c: Candidate) {
    && (match c.phase
        case ObjectDelete =>
          c.objectDeleteRequired && c.lifecycle == "expired" && Trim(OrEmpty(c.bucket)) != ""
          && ValidStoragePath(OrEmpty(c.path))
        case DetailCleanup =>
          !c.objectDeleteRequired && c.lifecycle == "deleted" && c.bucket.None? && c.path.None?)
    && Trim(c.role) != ""
    && |c.checksum| == 64 && (forall i :: 0 <= i < 64 ==> IsHexDigit(c.checksum[i]))
    && Trim(c.expiresAt) != ""
  }

  // ---------------------------------------------------------------------
  // Traces
  // ---------------------------------------------------------------------

  /** Where the code reads the clock. */
  datatype Site = CheckLease | CheckRenewed | BoundDelete | StagingDelete | StagingComplete

  datatype Event =
    | Clock(at: Instant, site: Site)
    | Previewed
    | Claimed(claim: Option<Claim>)
    | Renewed(token: Token, renewal: Option<Lease>)
    | Delete(token: Token, path: string, answer: DeleteAnswer)
    | Complete(token: Token, candidate: Candidate, outcome: DeleteOutcome, completion: Option<Completion>)
    | Fail(token: Token, candidate: Candidate, recorded: bool)
    | ClaimedStale(stale: Option<StaleClaim>)
    | CompletedStale(writeSet: nat, token: Token, accepted: bool)

  /** A trace grows at its end. */
  datatype Trace = Start | Then(prior: Trace, event: Event)

  ghost predicate IsPrefix(q: Trace, t: Trace) {
    q == t || (t.Then? && IsPrefix(q, t.prior))
  }

  lemma {:induction false} PrefixIsTransitive(a: Trace, b: Trace, c: Trace)
    requires IsPrefix(a, b) && IsPrefix(b, c)
    ensures IsPrefix(a, c)
  {
    if b == c {
    } else {
      PrefixIsTransitive(a, b, c.prior);
    }
  }

  /** The lease most recently granted in `t`, by a claim or by a renewal of the same token. */
  function LastGrant(t: Trace): Option<Lease> {
    match t
    case Start => None
    case Then(prior, Claimed(Some(claim))) => Some(claim.lease)
    case Then(prior, Renewed(token, Some(lease))) =>
      if lease.token == token then Some(lease) else LastGrant(prior)
    case Then(prior, _) => LastGrant(prior)
  }

  /** Progress on the write set claimed last: how many of its locators are known to be gone. */
  datatype Staging = Idle | Open(lease: Lease, writeSet: WriteSet, gone: nat)

  predicate MayBeCleaned(writeSet: WriteSet) {
    writeSet.status == "cleanup_pending" && |writeSet.items| <= 500
  }

  function StagingState(t: Trace): Staging {
    match t
    case Start => Idle
    case Then(prior, ClaimedStale(Some(stale))) =>
      if |stale.writeSets| == 1 && stale.lease.deadline.Some? && MayBeCleaned(stale.writeSets[0])
      then Open(stale.lease, stale.writeSets[0], 0) else Idle
    case Then(prior, Clock(_, _)) => StagingState(prior)
    case Then(prior, Delete(_, path, Gone(_))) =>
      var s := StagingState(prior);
      if s.Open? && s.gone < |s.writeSet.items| && s.writeSet.items[s.gone].path == path
      then s.(gone := s.gone + 1) else Idle
    case Then(prior, _) => Idle
  }

  predicate HeldAt(grant: Option<Lease>, token: Token, at: Instant, strictly: bool) {
    grant.Some? && grant.value.token == token && grant.value.deadline.Some?
    && (if strictly then at < grant.value.deadline.value else at <= grant.value.deadline.value)
  }

  /** The last event shows that the worker no longer holds the lease it was working under. */
  predicate Lost(t: Trace) {
    match t
    case Start => false
    case Then(prior, Renewed(token, None)) => true
    case Then(prior, Renewed(token, Some(lease))) => lease.token != token
    case Then(prior, Delete(_, _, TimedOut)) => true
    case Then(prior, Clock(at, CheckRenewed)) => Expired(LastGrant(t), at, true)
    case Then(prior, Clock(at, BoundDelete)) => Expired(LastGrant(t), at, false)
    case Then(prior, Clock(at, StagingDelete)) => Expired(StagingLease(t), at, false)
    case Then(prior, Clock(at, StagingComplete)) => Expired(StagingLease(t), at, true)
    case _ => false
  }

  /** `at` is past the deadline, where `exact` counts the deadline itself as past. */
  predicate Expired(grant: Option<Lease>, at: Instant, exact: bool) {
    grant.Some? && grant.value.deadline.Some?
    && (if exact then grant.value.deadline.value <= at else grant.value.deadline.value < at)
  }

  function StagingLease(t: Trace): Option<Lease> {
    var s := StagingState(t);
    if s.Open? then Some(s.lease) else None
  }

  predicate IsFreshCheck(t: Trace, token: Token) {
    t.Then? && t.event.Clock? && t.event.site in {CheckLease, CheckRenewed}
    && HeldAt(LastGrant(t), token, t.event.at, true)
  }

  /** What must have happened before `e` may be the next call. */
  predicate Allowed(bucket: string, t: Trace, e: Event) {
    && !Lost(t)
    && match e
       case Complete(token, _, _, _) => IsFreshCheck(t, token)
       case Fail(token, _, _) => IsFreshCheck(t, token)
       case Delete(token, path, _) =>
         t.Then? && t.event.Clock?
         && (|| (t.event.site == BoundDelete && HeldAt(LastGrant(t), token, t.event.at, false))
             || (&& t.event.site == StagingDelete
                 && var s := StagingState(t);
                    s.Open? && s.gone < |s.writeSet.items|
                    && s.writeSet.items[s.gone] == StaleItem(bucket, path)
                    && HeldAt(Some(s.lease), token, t.event.at, false)))
       case CompletedStale(id, token, _) =>
         t.Then? && t.event.Clock? && t.event.site == StagingComplete
         && var s := StagingState(t);
            s.Open? && s.writeSet.id == id && s.gone == |s.writeSet.items|
            && HeldAt(Some(s.lease), token, t.event.at, true)
       case Renewed(token, _) =>
         t.Then? && t.event.Clock? && t.event.site == CheckLease
         && LastGrant(t).Some? && LastGrant(t).value.token == token
       case Clock(_, CheckLease) => LastGrant(t).Some?
       case Clock(_, CheckRenewed) => t.Then? && t.event.Renewed?
       case Clock(_, BoundDelete) => LastGrant(t).Some? && IsFreshCheck(t, LastGrant(t).value.token)
       case Clock(_, _) => StagingState(t).Open?
       case _ => true
  }

  /** Every call of the trace was allowed when it was made. */
  predicate Fenced(bucket: string, t: Trace) {
    t.Start? || (Fenced(bucket, t.prior) && Allowed(bucket, t.prior, t.event))
  }

  /** Deletes, completions and failures, in order. */
  function Calls(t: Trace): seq<Event> {
    match t
    case Start => []
    case Then(prior, e) =>
      if e.Delete? || e.Complete? || e.Fail? then Calls(prior) + [e] else Calls(prior)
  }

  /** The answers of the deletes among `calls`; no other call has one. */
  function Answers(calls: seq<Event>): seq<Option<DeleteAnswer>> {
    seq(|calls|, i requires 0 <= i < |calls| => if calls[i].Delete? then Some(calls[i].answer) else None)
  }

  /** How many deletes among `calls` ended with `outcome`. */
  function GoneCount(calls: seq<Event>, outcome: DeleteOutcome): nat {
    multiset(Answers(calls))[Some(Gone(outcome))]
  }

  lemma GoneCountJoins(a: seq<Event>, b: seq<Event>, outcome: DeleteOutcome)
    ensures GoneCount(a + b, outcome) == GoneCount(a, outcome) + GoneCount(b, outcome)
  {
    assert Answers(a + b) == Answers(a) + Answers(b);
  }

  lemma GoneCountSnoc(calls: seq<Event>, e: Event, outcome: DeleteOutcome)
    ensures GoneCount(calls + [e], outcome) == GoneCount(calls, outcome)
            + if e.Delete? && e.answer == Gone(outcome) then 1 else 0
  {
    assert Answers(calls + [e]) == Answers(calls) + [if e.Delete? then Some(e.answer) else None];
  }

  /** Write sets whose completion was accepted. */
  function SetsCompleted(t: Trace): nat {
    match t
    case Start => 0
    case Then(prior, CompletedStale(_, _, true)) => SetsCompleted(prior) + 1
    case Then(prior, _) => SetsCompleted(prior)
  }

  // ---------------------------------------------------------------------
  // What a fenced trace guarantees
  // ---------------------------------------------------------------------

  lemma {:induction false} FencedAt(bucket: string, t: Trace, q: Trace)
    requires Fenced(bucket, t) && IsPrefix(q, t) && q.Then?
    ensures Fenced(bucket, q) && Allowed(bucket, q.prior, q.event)
  {
    if q == t {
    } else {
      FencedAt(bucket, t.prior, q);
    }
  }

  /** No call of any kind follows a lost lease. */
  lemma {:induction false} NothingFollowsALostLease(bucket: string, t: Trace, q: Trace)
    requires Fenced(bucket, t) && IsPrefix(q, t) && Lost(q)
    ensures q == t
  {
    if q == t {
    } else {
      NothingFollowsALostLease(bucket, t.prior, q);
    }
  }

  /** Some claim in `t` granted `token`. */
  ghost predicate ClaimedIn(t: Trace, token: Token) {
    && t.Then?
    && (|| ClaimedIn(t.prior, token)
        || (t.event.Claimed? && t.event.claim.Some? && t.event.claim.value.lease.token == token))
  }

  /** Through all renewals, a lease goes back to a claim that granted the same token. */
  lemma {:induction false} GrantWasClaimed(bucket: string, t: Trace)
    requires Fenced(bucket, t) && LastGrant(t).Some?
    ensures ClaimedIn(t, LastGrant(t).value.token)
  {
    if t.event.Claimed? && t.event.claim.Some? {
    } else {
      GrantWasClaimed(bucket, t.prior);
    }
  }

  /** Only a lease that some claim granted can be lost: a write set's or a batch's. */
  lemma LossWasClaimed(bucket: string, t: Trace)
    requires Fenced(bucket, t) && Lost(t)
    ensures StagingState(t.prior).Open?
         || (LastGrant(t.prior).Some? && ClaimedIn(t.prior, LastGrant(t.prior).value.token))
  {
    if LastGrant(t.prior).Some? {
      GrantWasClaimed(bucket, t.prior);
    }
  }

  /** Every completion or failure directly follows a clock reading before the deadline last
      granted to its own token. */
  lemma CallsAreFenced(bucket: string, t: Trace, q: Trace)
    requires Fenced(bucket, t) && IsPrefix(q, t) && q.Then? && (q.event.Complete? || q.event.Fail?)
    ensures q.prior.Then? && q.prior.event.Clock?
    ensures exists deadline ::
              LastGrant(q.prior) == Some(Lease(q.event.token, Some(deadline))) && q.prior.event.at < deadline
  {
    FencedAt(bucket, t, q);
    var grant := LastGrant(q.prior).value;
    assert grant == Lease(q.event.token, Some(grant.deadline.value));
  }

  /** Every delete directly follows a clock reading not past the deadline of its own token: for a
      candidate's delete the deadline last granted to it, for a locator's delete that of the write
      set whose next locator it is. */
  lemma DeletesAreFenced(bucket: string, t: Trace, q: Trace)
    requires Fenced(bucket, t) && IsPrefix(q, t) && q.Then? && q.event.Delete?
    ensures q.prior.Then? && q.prior.event.Clock? && q.prior.event.site in {BoundDelete, StagingDelete}
    ensures q.prior.event.site == BoundDelete ==>
      exists deadline ::
        LastGrant(q.prior) == Some(Lease(q.event.token, Some(deadline))) && q.prior.event.at <= deadline
    ensures q.prior.event.site == StagingDelete ==>
      exists deadline, writeSet, n: nat ::
        && StagingState(q.prior) == Open(Lease(q.event.token, Some(deadline)), writeSet, n)
        && n < |writeSet.items| && writeSet.items[n] == StaleItem(bucket, q.event.path)
        && q.prior.event.at <= deadline
  {
    FencedAt(bucket, t, q);
    if q.prior.event.site == BoundDelete {
      var grant := LastGrant(q.prior).value;
      assert grant == Lease(q.event.token, Some(grant.deadline.value));
    } else {
      var s := StagingState(q.prior);
      assert s == Open(Lease(q.event.token, Some(s.lease.deadline.value)), s.writeSet, s.gone);
    }
  }

  /** `path` was reported gone since the last write-set claim. */
  ghost predicate GoneSinceClaim(t: Trace, path: string) {
    t.Then? && !t.event.ClaimedStale?
    && ((t.event.Delete? && t.event.path == path && t.event.answer.Gone?) || GoneSinceClaim(t.prior, path))
  }

  lemma {:induction false} ProgressMeansGone(t: Trace, j: nat)
    requires StagingState(t).Open? && j < StagingState(t).gone <= |StagingState(t).writeSet.items|
    ensures GoneSinceClaim(t, StagingState(t).writeSet.items[j].path)
  {
    if t.event.Clock? {
      ProgressMeansGone(t.prior, j);
    } else if t.event.Delete? && j < StagingState(t.prior).gone {
      ProgressMeansGone(t.prior, j);
    }
  }

  /** A stale write set is completed only after each of its locators was deleted or missing, directly
      after a clock reading before the deadline of its own token. */
  lemma StaleCompletedAfterDeletes(bucket: string, t: Trace, q: Trace)
    requires Fenced(bucket, t) && IsPrefix(q, t) && q.Then? && q.event.CompletedStale?
    ensures StagingState(q.prior).Open? && StagingState(q.prior).writeSet.id == q.event.writeSet
    ensures forall j :: 0 <= j < |StagingState(q.prior).writeSet.items| ==>
              GoneSinceClaim(q.prior, StagingState(q.prior).writeSet.items[j].path)
    ensures q.prior.Then? && q.prior.event.Clock? && exists deadline ::
      StagingState(q.prior).lease == Lease(q.event.token, Some(deadline)) && q.prior.event.at < deadline
  {
    FencedAt(bucket, t, q);
    var lease := StagingState(q.prior).lease;
    assert lease == Lease(q.event.token, Some(lease.deadline.value));
    var items := StagingState(q.prior).writeSet.items;
    forall j | 0 <= j < |items| ensures GoneSinceClaim(q.prior, items[j].path) {
      ProgressMeansGone(q.prior, j);
    }
  }

  // ---------------------------------------------------------------------
  // The environment
  // ---------------------------------------------------------------------

  /** Answers of the backend and the clock, in the order in which calls of each kind are made.
      `None` and `false` are calls that returned an error. */
  datatype Env = Env(
    bucket: string,
    clock: nat -> Instant,
    preview: Option<seq<Candidate>>,
    claims: nat -> Option<Claim>,
    renewals: nat -> Option<Lease>,
    deletions: nat -> Option<DeleteOutcome>,
    overdue: nat -> bool,
    completions: nat -> Option<Completion>,
    failures: nat -> bool,
    staleClaims: nat -> Option<StaleClaim>,
    staleCompletions: nat -> bool)

  datatype World = World(
    trace: Trace,
    ticks: nat,
    claims: nat,
    renewals: nat,
    deletes: nat,
    completes: nat,
    fails: nat,
    staleClaims: nat,
    staleCompletes: nat)

  /** A world in which nothing has happened. */
  ghost predicate IsFresh(w: World) {
    w.trace.Start? && w == World(w.trace, 0, 0, 0, 0, 0, 0, 0, 0)
  }

  function ReadClock(env: Env, w: World, site: Site): World {
    w.(trace := Then(w.trace, Clock(env.clock(w.ticks), site)), ticks := w.ticks + 1)
  }

  function CallPreview(w: World): World {
    w.(trace := Then(w.trace, Previewed))
  }

  function CallClaim(env: Env, w: World): World {
    w.(trace := Then(w.trace, Claimed(env.claims(w.claims))), claims := w.claims + 1)
  }

  function CallRenew(env: Env, w: World, token: Token): World {
    w.(trace := Then(w.trace, Renewed(token, env.renewals(w.renewals))), renewals := w.renewals + 1)
  }

  /** The answer to delete number `k` when no timer interferes. */
  function DeleteReply(env: Env, k: nat): DeleteAnswer {
    match env.deletions(k)
    case None => DeleteError
    case Some(outcome) => Gone(outcome)
  }

  function TimedDelete(env: Env, k: nat): DeleteAnswer {
    if env.overdue(k) then TimedOut else DeleteReply(env, k)
  }

  function CallDelete(env: Env, w: World, token: Token, path: string): World {
    w.(trace := Then(w.trace, Delete(token, path, TimedDelete(env, w.deletes))), deletes := w.deletes + 1)
  }

  function CallComplete(env: Env, w: World, token: Token, c: Candidate, outcome: DeleteOutcome): World {
    w.(trace := Then(w.trace, Complete(token, c, outcome, env.completions(w.completes))),
       completes := w.completes + 1)
  }

  function CallFail(env: Env, w: World, token: Token, c: Candidate): World {
    w.(trace := Then(w.trace, Fail(token, c, env.failures(w.fails))), fails := w.fails + 1)
  }

  function CallClaimStale(env: Env, w: World): World {
    w.(trace := Then(w.trace, ClaimedStale(env.staleClaims(w.staleClaims))), staleClaims := w.staleClaims + 1)
  }

  function CallCompleteStale(env: Env, w: World, id: nat, token: Token): World {
    w.(trace := Then(w.trace, CompletedStale(id, token, env.staleCompletions(w.staleCompletes))),
       staleCompletes := w.staleCompletes + 1)
  }

  // ---------------------------------------------------------------------
  // Traces of the environment
  // ---------------------------------------------------------------------

  /** Makes the calls of `t` again, in order, against the environment. */
  ghost function Replay(env: Env, t: Trace): World {
    match t
    case Start => World(t, 0, 0, 0, 0, 0, 0, 0, 0)
    case Then(prior, e) =>
      var w := Replay(env, prior);
      match e
      case Clock(_, site) => ReadClock(env, w, site)
      case Previewed => CallPreview(w)
      case Claimed(_) => CallClaim(env, w)
      case Renewed(token, _) => CallRenew(env, w, token)
      case Delete(token, path, _) => CallDelete(env, w, token, path)
      case Complete(token, c, outcome, _) => CallComplete(env, w, token, c, outcome)
      case Fail(token, c, _) => CallFail(env, w, token, c)
      case ClaimedStale(_) => CallClaimStale(env, w)
      case CompletedStale(id, token, _) => CallCompleteStale(env, w, id, token)
  }

  /** Every reading and every answer in the trace is the environment's. */
  ghost predicate Genuine(env: Env, w: World) {
    Replay(env, w.trace) == w
  }

  /** So each event carries the answer that was next when it happened. */
  lemma {:induction false} GenuineAt(env: Env, w: World, q: Trace)
    requires Genuine(env, w) && IsPrefix(q, w.trace)
    ensures Genuine(env, Replay(env, q)) && Replay(env, q).trace == q
    ensures q.Then? && q.event.Clock? ==> q.event.at == env.clock(Replay(env, q.prior).ticks)
    decreases w.trace
  {
    if q == w.trace {
    } else {
      GenuineAt(env, Replay(env, w.trace.prior), q);
    }
  }

  predicate SameKind(a: Event, b: Event) {
    match a
    case Clock(_, _) => b.Clock?
    case Previewed => b.Previewed?
    case Claimed(_) => b.Claimed?
    case Renewed(_, _) => b.Renewed?
    case Delete(_, _, _) => b.Delete?
    case Complete(_, _, _, _) => b.Complete?
    case Fail(_, _, _) => b.Fail?
    case ClaimedStale(_) => b.ClaimedStale?
    case CompletedStale(_, _, _) => b.CompletedStale?
  }

  /** How many events of the kind of `e` there are in `t`. */
  ghost function Ordinal(t: Trace, e: Event): nat {
    if t.Start? then 0 else Ordinal(t.prior, e) + if SameKind(t.event, e) then 1 else 0
  }

  /** `e` carries answer number `n` of its kind. */
  ghost predicate Carries(env: Env, e: Event, n: nat) {
    match e
    case Clock(at, _) => at == env.clock(n)
    case Previewed => true
    case Claimed(claim) => claim == env.claims(n)
    case Renewed(_, renewal) => renewal == env.renewals(n)
    case Delete(_, _, answer) => answer == TimedDelete(env, n)
    case Complete(_, _, _, completion) => completion == env.completions(n)
    case Fail(_, _, recorded) => recorded == env.failures(n)
    case ClaimedStale(stale) => stale == env.staleClaims(n)
    case CompletedStale(_, _, accepted) => accepted == env.staleCompletions(n)
  }

  ghost function Consumed(w: World, e: Event): nat {
    match e
    case Clock(_, _) => w.ticks
    case Previewed => 0
    case Claimed(_) => w.claims
    case Renewed(_, _) => w.renewals
    case Delete(_, _, _) => w.deletes
    case Complete(_, _, _, _) => w.completes
    case Fail(_, _, _) => w.fails
    case ClaimedStale(_) => w.staleClaims
    case CompletedStale(_, _, _) => w.staleCompletes
  }

  lemma {:induction false} ReplayConsumes(env: Env, t: Trace, e: Event)
    requires !e.Previewed?
    ensures Consumed(Replay(env, t), e) == Ordinal(t, e)
  {
    if t.Start? {
    } else {
      ReplayConsumes(env, t.prior, e);
    }
  }

  /** No answer is skipped or given twice: every event carries the answer whose number is that of the
      events of its kind before it. */
  lemma AnswersInOrder(env: Env, w: World, q: Trace)
    requires Genuine(env, w) && IsPrefix(q, w.trace) && q.Then?
    ensures Carries(env, q.event, Ordinal(q.prior, q.event))
  {
    GenuineAt(env, w, q);
    if !q.event.Previewed? {
      ReplayConsumes(env, q.prior, q.event);
    }
  }
}
