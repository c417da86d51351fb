/** Package retention: the reporting query against the deleting queries, in SQL three-valued logic
    (crates/solver-worker/src/package_retention.rs). */
module RetentionSql {
  import opened Wrappers

  // ---------------------------------------------------------------------
  // Three-valued logic
  // ---------------------------------------------------------------------

  datatype Truth = Yes | No | Null

  function Of(b: bool): Truth {
    if b then Yes else No
  }

  function And(a: Truth, b: Truth): Truth {
    if a == No || b == No then No else if a == Yes && b == Yes then Yes else Null
  }

  function Or(a: Truth, b: Truth): Truth {
    if a == Yes || b == Yes then Yes else if a == No && b == No then No else Null
  }

  function Not(a: Truth): Truth {
    match a
    case Yes => No
    case No => Yes
    case Null => Null
  }

  /** Negation exchanges the two connectives. */
  lemma DeMorgan(a: Truth, b: Truth)
    ensures Not(And(a, b)) == Or(Not(a), Not(b)) && Not(Or(a, b)) == And(Not(a), Not(b))
  {
  }

  function Eq<T(==)>(a: Option<T>, b: Option<T>): Truth {
    if a.Some? && b.Some? then Of(a.value == b.value) else Null
  }

  function AtLeast(a: Option<int>, bound: int): Truth {
    if a.Some? then Of(a.value >= bound) else Null
  }

  function Below(a: Option<int>, bound: int): Truth {
    if a.Some? then Of(a.value < bound) else Null
  }

  function AtMost(a: Option<int>, bound: int): Truth {
    if a.Some? then Of(a.value <= bound) else Null
  }

  function Above(a: Option<int>, bound: int): Truth {
    if a.Some? then Of(a.value > bound) else Null
  }

  /** `x IN (...)`: the disjunction of the comparisons. */
  function In<T(==)>(x: Option<T>, list: seq<Option<T>>): Truth {
    if list == [] then No else Or(Eq(x, list[0]), In(x, list[1..]))
  }

  /** `EXISTS` never yields null. */
  ghost function Exists<T(!new)>(rows: seq<T>, condition: T -> Truth): Truth {
    Of(exists i :: 0 <= i < |rows| && condition(rows[i]) == Yes)
  }

  /** The column of the rows a subquery keeps. */
  function Column<T, U>(rows: seq<T>, keep: T -> Truth, column: T -> Option<U>): seq<Option<U>> {
    if rows == [] then []
    else (if keep(rows[0]) == Yes then [column(rows[0])] else []) + Column(rows[1..], keep, column)
  }

  lemma {:induction false} InColumn<T(!new), U>(x: Option<U>, rows: seq<T>, keep: T -> Truth, column: T -> Option<U>)
    ensures In(x, Column(rows, keep, column)) == Yes <==>
            exists i :: 0 <= i < |rows| && And(keep(rows[i]), Eq(x, column(rows[i]))) == Yes
  {
    if rows == [] {
    } else {
      InColumn(x, rows[1..], keep, column);
      var rest := Column(rows[1..], keep, column);
      if keep(rows[0]) == Yes {
        assert ([column(rows[0])] + rest)[1..] == rest;
      } else {
        assert [] + rest == rest;
      }
      if i :| 0 <= i < |rows| && And(keep(rows[i]), Eq(x, column(rows[i]))) == Yes {
        if i > 0 {
          assert rows[1..][i - 1] == rows[i];
        }
      }
      if i :| 0 <= i < |rows[1..]| && And(keep(rows[1..][i]), Eq(x, column(rows[1..][i]))) == Yes {
        assert rows[i + 1] == rows[1..][i];
      }
    }
  }

  lemma InPair<T>(x: Option<T>, a: Option<T>, b: Option<T>)
    ensures In(x, [a, b]) == Or(Eq(x, a), Eq(x, b))
  {
    assert [a, b][1..] == [b] && [b][1..] == [];
    assert In(x, [b]) == Or(Eq(x, b), No);
  }

  // ---------------------------------------------------------------------
  // Tables
  // ---------------------------------------------------------------------

  type Uuid = nat

  /** A text value is the canonical print of one uuid or no uuid at all. */
  datatype Text = OfUuid(id: Uuid) | Other(code: string)

  datatype Job = Job(id: Uuid, status: Option<string>, payloadJobId: Option<Text>,
                     finishedAt: Option<int>, updatedAt: Option<int>, createdAt: Option<int>)

  datatype Artifact = Artifact(id: Uuid, workerJobId: Option<Uuid>, jobId: Option<Uuid>, status: Option<string>,
                               pinned: Option<bool>, expiresAt: Option<int>, bytes: Option<nat>)

  datatype CacheRow = CacheRow(id: Uuid, workerJobId: Option<Uuid>, jobId: Option<Uuid>, status: Option<string>,
                               lastAccessed: Option<int>, exportArtifact: Option<Uuid>, reportArtifact: Option<Uuid>,
                               hits: nat)

  datatype ExportItem = ExportItem(id: Uuid, workerJobId: Option<Uuid>, jobId: Option<Uuid>, createdAt: Option<int>)

  datatype Db = Db(jobs: seq<Job>, artifacts: seq<Artifact>, caches: seq<CacheRow>, items: seq<ExportItem>)

  /** The reference time and the two retention cutoffs derived from it. */
  datatype Horizon = Horizon(now: int, cacheCutoff: int, jobCutoff: int)

  function AsText(id: Option<Uuid>): Option<Text> {
    if id.Some? then Some(OfUuid(id.value)) else None
  }

  function IsActiveJob(j: Job): Truth {
    In(j.status, [Some("queued"), Some("running"), Some("waiting")])
  }

  function IsLiveArtifact(a: Artifact): Truth {
    Not(Eq(a.status, Some("deleted")))
  }

  function IsPendingCache(c: CacheRow): Truth {
    In(c.status, [Some("pending"), Some("running")])
  }

  function IsRecentCache(c: CacheRow, h: Horizon): Truth {
    Or(IsPendingCache(c), AtLeast(c.lastAccessed, h.cacheCutoff))
  }

  // ---------------------------------------------------------------------
  // Conditions as the report writes them: uncorrelated membership
  // ---------------------------------------------------------------------

  function ActiveByMembership(db: Db, workerJobId: Option<Uuid>, jobId: Option<Uuid>): Truth {
    Or(In(workerJobId, Column(db.jobs, IsActiveJob, (j: Job) => Some(j.id))),
       In(AsText(jobId), Column(db.jobs, IsActiveJob, (j: Job) => j.payloadJobId)))
  }

  function LiveArtifactByMembership(db: Db, e: ExportItem): Truth {
    Or(In(e.workerJobId, Column(db.artifacts, IsLiveArtifact, (a: Artifact) => a.workerJobId)),
       In(e.jobId, Column(db.artifacts, IsLiveArtifact, (a: Artifact) => a.jobId)))
  }

  function CacheByMembership(db: Db, h: Horizon, e: ExportItem): Truth {
    Or(In(e.workerJobId, Column(db.caches, (c: CacheRow) => IsRecentCache(c, h), (c: CacheRow) => c.workerJobId)),
       In(e.jobId, Column(db.caches, (c: CacheRow) => IsRecentCache(c, h), (c: CacheRow) => c.jobId)))
  }

  // ---------------------------------------------------------------------
  // Conditions as the deleting queries write them: correlated EXISTS
  // ---------------------------------------------------------------------

  function NotNull<T>(x: Option<T>): Truth {
    Of(x.Some?)
  }

  ghost function ActiveByExists(db: Db, workerJobId: Option<Uuid>, jobId: Option<Uuid>): Truth {
    Exists(db.jobs, (j: Job) =>
      And(IsActiveJob(j),
          Or(And(NotNull(workerJobId), Eq(Some(j.id), workerJobId)), Eq(j.payloadJobId, AsText(jobId)))))
  }

  ghost function LiveArtifactByExists(db: Db, e: ExportItem): Truth {
    Exists(db.artifacts, (a: Artifact) =>
      And(IsLiveArtifact(a),
          Or(And(NotNull(e.workerJobId), Eq(a.workerJobId, e.workerJobId)), Eq(a.jobId, e.jobId))))
  }

  ghost function CacheByExists(db: Db, h: Horizon, e: ExportItem): Truth {
    Exists(db.caches, (c: CacheRow) =>
      And(IsRecentCache(c, h),
          Or(And(NotNull(e.workerJobId), Eq(c.workerJobId, e.workerJobId)), Eq(c.jobId, e.jobId))))
  }

  /** The rewrite the report relies on: a true membership is a true EXISTS, and CASE treats the
      null of one like the false of the other. */
  lemma ActiveAgrees(db: Db, workerJobId: Option<Uuid>, jobId: Option<Uuid>)
    ensures ActiveByMembership(db, workerJobId, jobId) == Yes <==> ActiveByExists(db, workerJobId, jobId) == Yes
  {
    InColumn(workerJobId, db.jobs, IsActiveJob, (j: Job) => Some(j.id));
    InColumn(AsText(jobId), db.jobs, IsActiveJob, (j: Job) => j.payloadJobId);
  }

  lemma LiveArtifactAgrees(db: Db, e: ExportItem)
    ensures LiveArtifactByMembership(db, e) == Yes <==> LiveArtifactByExists(db, e) == Yes
  {
    InColumn(e.workerJobId, db.artifacts, IsLiveArtifact, (a: Artifact) => a.workerJobId);
    InColumn(e.jobId, db.artifacts, IsLiveArtifact, (a: Artifact) => a.jobId);
  }

  lemma CacheAgrees(db: Db, h: Horizon, e: ExportItem)
    ensures CacheByMembership(db, h, e) == Yes <==> CacheByExists(db, h, e) == Yes
  {
    InColumn(e.workerJobId, db.caches, (c: CacheRow) => IsRecentCache(c, h), (c: CacheRow) => c.workerJobId);
    InColumn(e.jobId, db.caches, (c: CacheRow) => IsRecentCache(c, h), (c: CacheRow) => c.jobId);
  }

  // ---------------------------------------------------------------------
  // Artifacts
  // ---------------------------------------------------------------------

  datatype Reason =
    | Pinned | AlreadyDeleted | NotReady | MissingExpiry | FutureExpiry | ActiveParent | CacheReference
    | ActiveCache | RecentAccess | LiveArtifact | RecentItem | Eligible

  ghost function ExportReferenced(db: Db, h: Horizon, a: Artifact): Truth {
    Of(exists c :: c in db.caches && And(Eq(c.exportArtifact, Some(a.id)), IsRecentCache(c, h)) == Yes)
  }

  ghost function ReportReferenced(db: Db, h: Horizon, a: Artifact): Truth {
    Of(exists c :: c in db.caches && And(Eq(c.reportArtifact, Some(a.id)), IsRecentCache(c, h)) == Yes)
  }

  ghost function Referenced(db: Db, h: Horizon, a: Artifact): Truth {
    Of(exists c ::
        c in db.caches
        && And(Or(Eq(c.exportArtifact, Some(a.id)), Eq(c.reportArtifact, Some(a.id))), IsRecentCache(c, h)) == Yes)
  }

  ghost function ArtifactReason(db: Db, h: Horizon, a: Artifact): Reason {
    if Eq(a.pinned, Some(true)) == Yes then Pinned
    else if Eq(a.status, Some("deleted")) == Yes then AlreadyDeleted
    else if Not(Eq(a.status, Some("ready"))) == Yes then NotReady
    else if a.expiresAt.None? then MissingExpiry
    else if Above(a.expiresAt, h.now) == Yes then FutureExpiry
    else if ActiveByMembership(db, a.workerJobId, a.jobId) == Yes then ActiveParent
    else if Or(ExportReferenced(db, h, a), ReportReferenced(db, h, a)) == Yes then CacheReference
    else Eligible
  }

  ghost function ArtifactSelected(db: Db, h: Horizon, a: Artifact): Truth {
    And(Eq(a.status, Some("ready")),
    And(Eq(a.pinned, Some(false)),
    And(NotNull(a.expiresAt),
    And(AtMost(a.expiresAt, h.now),
    And(Not(ActiveByExists(db, a.workerJobId, a.jobId)),
        Not(Referenced(db, h, a)))))))
  }

  /** Over all table contents: an artifact is selected exactly when it is reported eligible and its
      status and pin columns are not null. */
  lemma ArtifactReportIsExact(db: Db, h: Horizon, a: Artifact)
    ensures ArtifactSelected(db, h, a) == Yes <==>
            ArtifactReason(db, h, a) == Eligible && a.status.Some? && a.pinned.Some?
  {
    ActiveAgrees(db, a.workerJobId, a.jobId);
    assert "ready" != "deleted";
    if a.pinned.Some? {
      assert a.pinned == Some(if a.pinned.value then true else false);
    }
  }

  // ---------------------------------------------------------------------
  // Request cache
  // ---------------------------------------------------------------------

  ghost function ReferencedArtifactLives(db: Db, c: CacheRow): Truth {
    Exists(db.artifacts, (a: Artifact) =>
      And(IsLiveArtifact(a), In(Some(a.id), [c.exportArtifact, c.reportArtifact])))
  }

  ghost function CacheReason(db: Db, h: Horizon, c: CacheRow): Reason {
    if IsPendingCache(c) == Yes then ActiveCache
    else if AtLeast(c.lastAccessed, h.cacheCutoff) == Yes then RecentAccess
    else if ActiveByMembership(db, c.workerJobId, c.jobId) == Yes then ActiveParent
    else if ReferencedArtifactLives(db, c) == Yes then LiveArtifact
    else Eligible
  }

  ghost function CacheSelected(db: Db, h: Horizon, c: CacheRow): Truth {
    And(Not(IsPendingCache(c)),
    And(Below(c.lastAccessed, h.cacheCutoff),
    And(Not(ActiveByExists(db, c.workerJobId, c.jobId)),
        Not(ReferencedArtifactLives(db, c)))))
  }

  /** A request-cache row is selected exactly when it is reported eligible and its status and
      last access are not null; with a null last access it is reported but never deleted. */
  lemma CacheReportIsExact(db: Db, h: Horizon, c: CacheRow)
    ensures CacheSelected(db, h, c) == Yes <==>
            CacheReason(db, h, c) == Eligible && c.status.Some? && c.lastAccessed.Some?
  {
    ActiveAgrees(db, c.workerJobId, c.jobId);
    InPair(c.status, Some("pending"), Some("running"));
  }

  // ---------------------------------------------------------------------
  // Export items
  // ---------------------------------------------------------------------

  function Coalesce(a: Option<int>, b: Option<int>): Option<int> {
    if a.Some? then a else b
  }

  /** The joined job, whose id is the table's key. */
  function JobOf(jobs: seq<Job>, workerJobId: Option<Uuid>): Option<Job> {
    if jobs == [] then None
    else if Eq(Some(jobs[0].id), workerJobId) == Yes then Some(jobs[0]) else JobOf(jobs[1..], workerJobId)
  }

  /** The recency value: job finish, update or creation, else the item's own creation. */
  function Recency(db: Db, e: ExportItem): Option<int> {
    match JobOf(db.jobs, e.workerJobId)
    case None => e.createdAt
    case Some(j) => Coalesce(j.finishedAt, Coalesce(j.updatedAt, Coalesce(j.createdAt, e.createdAt)))
  }

  ghost function ItemReason(db: Db, h: Horizon, e: ExportItem): Reason {
    if ActiveByMembership(db, e.workerJobId, e.jobId) == Yes then ActiveParent
    else if LiveArtifactByMembership(db, e) == Yes then LiveArtifact
    else if CacheByMembership(db, h, e) == Yes then CacheReference
    else if AtLeast(Recency(db, e), h.jobCutoff) == Yes then RecentItem
    else Eligible
  }

  ghost function ItemSelected(db: Db, h: Horizon, e: ExportItem): Truth {
    And(Below(Recency(db, e), h.jobCutoff),
    And(Not(ActiveByExists(db, e.workerJobId, e.jobId)),
    And(Not(LiveArtifactByExists(db, e)),
        Not(CacheByExists(db, h, e)))))
  }

  /** An export item is selected exactly when it is reported eligible and has a recency value. */
  lemma ItemReportIsExact(db: Db, h: Horizon, e: ExportItem)
    ensures ItemSelected(db, h, e) == Yes <==> ItemReason(db, h, e) == Eligible && Recency(db, e).Some?
  {
    ActiveAgrees(db, e.workerJobId, e.jobId);
    LiveArtifactAgrees(db, e);
    CacheAgrees(db, h, e);
  }

  // ---------------------------------------------------------------------
  // Null columns
  // ---------------------------------------------------------------------

  /** The columns the table definitions declare NOT NULL. */
  ghost predicate NotNullColumns(db: Db) {
    && (forall i :: 0 <= i < |db.artifacts| ==> db.artifacts[i].status.Some? && db.artifacts[i].pinned.Some?)
    && (forall i :: 0 <= i < |db.caches| ==> db.caches[i].status.Some? && db.caches[i].lastAccessed.Some?)
    && (forall i :: 0 <= i < |db.items| ==> db.items[i].createdAt.Some?)
  }

  /** Under those columns the report is exact in all three tables. */
  lemma ReportIsExact(db: Db, h: Horizon)
    requires NotNullColumns(db)
    ensures forall i :: 0 <= i < |db.artifacts| ==>
      (ArtifactSelected(db, h, db.artifacts[i]) == Yes <==> ArtifactReason(db, h, db.artifacts[i]) == Eligible)
    ensures forall i :: 0 <= i < |db.caches| ==>
      (CacheSelected(db, h, db.caches[i]) == Yes <==> CacheReason(db, h, db.caches[i]) == Eligible)
    ensures forall i :: 0 <= i < |db.items| ==>
      (ItemSelected(db, h, db.items[i]) == Yes <==> ItemReason(db, h, db.items[i]) == Eligible)
  {
    forall i | 0 <= i < |db.artifacts|
      ensures ArtifactSelected(db, h, db.artifacts[i]) == Yes <==> ArtifactReason(db, h, db.artifacts[i]) == Eligible
    {
      ArtifactReportIsExact(db, h, db.artifacts[i]);
    }
    forall i | 0 <= i < |db.caches|
      ensures CacheSelected(db, h, db.caches[i]) == Yes <==> CacheReason(db, h, db.caches[i]) == Eligible
    {
      CacheReportIsExact(db, h, db.caches[i]);
    }
    forall i | 0 <= i < |db.items|
      ensures ItemSelected(db, h, db.items[i]) == Yes <==> ItemReason(db, h, db.items[i]) == Eligible
    {
      ItemReportIsExact(db, h, db.items[i]);
    }
  }

  const UNDATED_ITEM := ExportItem(63, None, None, None)

  /** Without them it is not: an export item with no job and a null creation time, alone in the
      database, is reported eligible at every time and never selected. */
  lemma UndatedItemIsReportedOnly(h: Horizon)
    ensures var db := Db([], [], [], [UNDATED_ITEM]);
            ItemReason(db, h, UNDATED_ITEM) == Eligible && ItemSelected(db, h, UNDATED_ITEM) != Yes
  {
    ItemReportIsExact(Db([], [], [], [UNDATED_ITEM]), h, UNDATED_ITEM);
  }

  const UNUSED_CACHE := CacheRow(1, None, None, Some("stale"), None, None, None, 0)
  const UNMARKED_CACHE := CacheRow(1, None, None, None, Some(0), None, None, 0)

  /** So are a request-cache row whose last access is null, and an old one whose status is null. */
  lemma NullAccessIsReportedOnly(h: Horizon)
    requires 0 < h.cacheCutoff
    ensures forall c :: c in [UNUSED_CACHE, UNMARKED_CACHE] ==>
      CacheReason(Db([], [], [c], []), h, c) == Eligible && CacheSelected(Db([], [], [c], []), h, c) != Yes
  {
    forall c | c in [UNUSED_CACHE, UNMARKED_CACHE]
      ensures CacheReason(Db([], [], [c], []), h, c) == Eligible && CacheSelected(Db([], [], [c], []), h, c) != Yes
    {
      InPair(c.status, Some("pending"), Some("running"));
      assert "stale" != "pending" && "stale" != "running";
      CacheReportIsExact(Db([], [], [c], []), h, c);
    }
  }

  const UNMARKED_ARTIFACT := Artifact(1, None, None, None, Some(false), Some(0), None)
  const UNDECIDED_ARTIFACT := Artifact(1, None, None, Some("ready"), None, Some(0), None)

  /** And an expired artifact whose status or whose pin is null. */
  lemma NullPinIsReportedOnly(h: Horizon)
    requires 0 <= h.now
    ensures forall a :: a in [UNMARKED_ARTIFACT, UNDECIDED_ARTIFACT] ==>
      ArtifactReason(Db([], [a], [], []), h, a) == Eligible && ArtifactSelected(Db([], [a], [], []), h, a) != Yes
  {
    forall a | a in [UNMARKED_ARTIFACT, UNDECIDED_ARTIFACT]
      ensures ArtifactReason(Db([], [a], [], []), h, a) == Eligible
      ensures ArtifactSelected(Db([], [a], [], []), h, a) != Yes
    {
      assert "ready" != "deleted";
      ArtifactReportIsExact(Db([], [a], [], []), h, a);
    }
  }

  // ---------------------------------------------------------------------
  // The grouped report
  // ---------------------------------------------------------------------

  datatype Area = Artifacts | RequestCache | ExportItems

  /** One classified row, before grouping. */
  datatype Line = Line(area: Area, reason: Reason, bytes: nat, hits: nat)

  ghost function ArtifactLines(db: Db, h: Horizon, rows: seq<Artifact>): seq<Line> {
    seq(|rows|, i requires 0 <= i < |rows| =>
      Line(Artifacts, ArtifactReason(db, h, rows[i]), if rows[i].bytes.Some? then rows[i].bytes.value else 0, 0))
  }

  ghost function CacheLines(db: Db, h: Horizon, rows: seq<CacheRow>): seq<Line> {
    seq(|rows|, i requires 0 <= i < |rows| => Line(RequestCache, CacheReason(db, h, rows[i]), 0, rows[i].hits))
  }

  ghost function ItemLines(db: Db, h: Horizon, rows: seq<ExportItem>): seq<Line> {
    seq(|rows|, i requires 0 <= i < |rows| => Line(ExportItems, ItemReason(db, h, rows[i]), 0, 0))
  }

  ghost function Classified(db: Db, h: Horizon): seq<Line> {
    ArtifactLines(db, h, db.artifacts) + CacheLines(db, h, db.caches) + ItemLines(db, h, db.items)
  }

  /** What a group adds up: its rows, their bytes or their hits. */
  type Measure = Line -> nat

  function OneRow(line: Line): nat {
    1
  }

  function BytesOf(line: Line): nat {
    line.bytes
  }

  function HitsOf(line: Line): nat {
    line.hits
  }

  function Total(lines: seq<Line>, of: Measure): nat {
    if lines == [] then 0 else of(lines[0]) + Total(lines[1..], of)
  }

  /** The sum of one group of the report. */
  function Group(lines: seq<Line>, area: Area, reason: Reason, of: Measure): nat {
    if lines == [] then 0
    else
      (if lines[0].area == area && lines[0].reason == reason then of(lines[0]) else 0)
      + Group(lines[1..], area, reason, of)
  }

  const REASONS := [Pinned, AlreadyDeleted, NotReady, MissingExpiry, FutureExpiry, ActiveParent, CacheReference,
                    ActiveCache, RecentAccess, LiveArtifact, RecentItem, Eligible]

  function AreaGroups(lines: seq<Line>, area: Area, reasons: seq<Reason>, of: Measure): nat {
    if reasons == [] then 0
    else Group(lines, area, reasons[0], of) + AreaGroups(lines, area, reasons[1..], of)
  }

  /** All groups of the report whose reason is listed. */
  function AllGroups(lines: seq<Line>, reasons: seq<Reason>, of: Measure): nat {
    AreaGroups(lines, Artifacts, reasons, of) + AreaGroups(lines, RequestCache, reasons, of)
    + AreaGroups(lines, ExportItems, reasons, of)
  }

  predicate Distinct<T(==)>(s: seq<T>) {
    forall i, j :: 0 <= i < j < |s| ==> s[i] != s[j]
  }

  lemma {:induction false} AreaTakesOne(lines: seq<Line>, area: Area, reasons: seq<Reason>, of: Measure)
    requires lines != [] && Distinct(reasons)
    ensures AreaGroups(lines, area, reasons, of) == AreaGroups(lines[1..], area, reasons, of)
            + if lines[0].area == area && lines[0].reason in reasons then of(lines[0]) else 0
    decreases |reasons|
  {
    if reasons == [] {
    } else {
      AreaTakesOne(lines, area, reasons[1..], of);
      assert reasons == [reasons[0]] + reasons[1..];
      assert lines[0].reason in reasons[1..] ==> lines[0].reason != reasons[0];
    }
  }

  lemma {:induction false} NoLinesInArea(area: Area, reasons: seq<Reason>, of: Measure)
    ensures AreaGroups([], area, reasons, of) == 0
    decreases |reasons|
  {
    if reasons == [] {
    } else {
      NoLinesInArea(area, reasons[1..], of);
    }
  }

  ghost predicate AllListed(lines: seq<Line>, reasons: seq<Reason>) {
    forall i :: 0 <= i < |lines| ==> lines[i].reason in reasons
  }

  lemma {:induction false} GroupsConserve(lines: seq<Line>, reasons: seq<Reason>, of: Measure)
    requires Distinct(reasons) && AllListed(lines, reasons)
    ensures AllGroups(lines, reasons, of) == Total(lines, of)
    decreases |lines|
  {
    if lines == [] {
      NoLinesInArea(Artifacts, reasons, of);
      NoLinesInArea(RequestCache, reasons, of);
      NoLinesInArea(ExportItems, reasons, of);
    } else {
      AreaTakesOne(lines, Artifacts, reasons, of);
      AreaTakesOne(lines, RequestCache, reasons, of);
      AreaTakesOne(lines, ExportItems, reasons, of);
      GroupsConserve(lines[1..], reasons, of);
    }
  }

  function SumOf(column: seq<nat>): nat {
    if column == [] then 0 else column[0] + SumOf(column[1..])
  }

  /** The byte column, a null counting as zero. */
  function ByteColumn(rows: seq<Artifact>): seq<nat> {
    seq(|rows|, i requires 0 <= i < |rows| => if rows[i].bytes.Some? then rows[i].bytes.value else 0)
  }

  function HitColumn(rows: seq<CacheRow>): seq<nat> {
    seq(|rows|, i requires 0 <= i < |rows| => rows[i].hits)
  }

  lemma {:induction false} TotalJoins(a: seq<Line>, b: seq<Line>, of: Measure)
    ensures Total(a + b, of) == Total(a, of) + Total(b, of)
    decreases |a|
  {
    if a == [] {
      assert a + b == b;
    } else {
      TotalJoins(a[1..], b, of);
      assert (a + b)[1..] == a[1..] + b;
    }
  }

  lemma {:induction false} TotalOfColumn(lines: seq<Line>, of: Measure, column: seq<nat>)
    requires |lines| == |column| && forall i :: 0 <= i < |lines| ==> of(lines[i]) == column[i]
    ensures Total(lines, of) == SumOf(column)
    decreases |lines|
  {
    if lines == [] {
    } else {
      TotalOfColumn(lines[1..], of, column[1..]);
    }
  }

  lemma {:induction false} TotalOfConstant(lines: seq<Line>, of: Measure, each: nat)
    requires forall i :: 0 <= i < |lines| ==> of(lines[i]) == each
    ensures Total(lines, of) == |lines| * each
    decreases |lines|
  {
    if lines == [] {
    } else {
      TotalOfConstant(lines[1..], of, each);
      assert |lines| * each == (|lines| - 1) * each + each;
    }
  }

  /** The listed reasons are all there are, each listed once. */
  lemma ReasonsAreListed(lines: seq<Line>)
    ensures Distinct(REASONS) && AllListed(lines, REASONS)
  {
    forall i | 0 <= i < |lines| ensures lines[i].reason in REASONS {
      ReasonIsListed(lines[i].reason);
    }
  }

  lemma ReasonIsListed(r: Reason)
    ensures r in REASONS
  {
    match r
    case Pinned => assert REASONS[0] == r;
    case AlreadyDeleted => assert REASONS[1] == r;
    case NotReady => assert REASONS[2] == r;
    case MissingExpiry => assert REASONS[3] == r;
    case FutureExpiry => assert REASONS[4] == r;
    case ActiveParent => assert REASONS[5] == r;
    case CacheReference => assert REASONS[6] == r;
    case ActiveCache => assert REASONS[7] == r;
    case RecentAccess => assert REASONS[8] == r;
    case LiveArtifact => assert REASONS[9] == r;
    case RecentItem => assert REASONS[10] == r;
    case Eligible => assert REASONS[11] == r;
  }

  lemma ConserveAll(lines: seq<Line>, of: Measure)
    ensures AllGroups(lines, REASONS, of) == Total(lines, of)
  {
    ReasonsAreListed(lines);
    GroupsConserve(lines, REASONS, of);
  }

  /** Every row falls in exactly one group: over all groups of the report the row counts, bytes and
      hits add up to the rows of the three tables and the sums of their columns. */
  lemma ReportConserves(db: Db, h: Horizon)
    ensures AllGroups(Classified(db, h), REASONS, OneRow) == |db.artifacts| + |db.caches| + |db.items|
    ensures AllGroups(Classified(db, h), REASONS, BytesOf) == SumOf(ByteColumn(db.artifacts))
    ensures AllGroups(Classified(db, h), REASONS, HitsOf) == SumOf(HitColumn(db.caches))
  {
    var a, c, e := ArtifactLines(db, h, db.artifacts), CacheLines(db, h, db.caches), ItemLines(db, h, db.items);
    ThreeTables(a, c, e, ByteColumn(db.artifacts), HitColumn(db.caches));
    ConserveAll(a + c + e, OneRow);
    ConserveAll(a + c + e, BytesOf);
    ConserveAll(a + c + e, HitsOf);
  }

  lemma ThreeTables(a: seq<Line>, c: seq<Line>, e: seq<Line>, bytes: seq<nat>, hits: seq<nat>)
    requires |a| == |bytes| && forall i :: 0 <= i < |a| ==> a[i].bytes == bytes[i] && a[i].hits == 0
    requires |c| == |hits| && forall i :: 0 <= i < |c| ==> c[i].bytes == 0 && c[i].hits == hits[i]
    requires forall i :: 0 <= i < |e| ==> e[i].bytes == 0 && e[i].hits == 0
    ensures Total(a + c + e, OneRow) == |a| + |c| + |e|
    ensures Total(a + c + e, BytesOf) == SumOf(bytes)
    ensures Total(a + c + e, HitsOf) == SumOf(hits)
  {
    TotalOfConstant(a + c + e, OneRow, 1);
    TotalJoins(a + c, e, BytesOf);
    TotalJoins(a, c, BytesOf);
    TotalOfColumn(a, BytesOf, bytes);
    TotalOfConstant(c, BytesOf, 0);
    TotalOfConstant(e, BytesOf, 0);
    TotalJoins(a + c, e, HitsOf);
    TotalJoins(a, c, HitsOf);
    TotalOfConstant(a, HitsOf, 0);
    TotalOfColumn(c, HitsOf, hits);
    TotalOfConstant(e, HitsOf, 0);
  }
}
