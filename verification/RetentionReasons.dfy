/** What each reason of the retention report, and each selection of a deleting query, says about the
    columns of a row and the other tables (crates/solver-worker/src/package_retention.rs). */
module RetentionReasons {
  import opened Wrappers
  import opened RetentionSql

  // ---------------------------------------------------------------------
  // Conditions on columns
  // ---------------------------------------------------------------------

  ghost predicate IsActive(status: Option<string>) {
    status == Some("queued") || status == Some("running") || status == Some("waiting")
  }

  /** An active job is the row's worker job, or carries the row's job id in its payload. */
  ghost predicate ActiveJobFor(db: Db, workerJobId: Option<Uuid>, jobId: Option<Uuid>) {
    exists i :: 0 <= i < |db.jobs| && IsActive(db.jobs[i].status)
                && (workerJobId == Some(db.jobs[i].id)
                    || (jobId.Some? && db.jobs[i].payloadJobId == Some(OfUuid(jobId.value))))
  }

  /** A request-cache row that is being worked on, or was used since the cutoff. */
  ghost predicate InUse(c: CacheRow, h: Horizon) {
    || c.status == Some("pending") || c.status == Some("running")
    || (c.lastAccessed.Some? && c.lastAccessed.value >= h.cacheCutoff)
  }

  ghost predicate InUseWith(db: Db, h: Horizon, a: Artifact) {
    exists i :: 0 <= i < |db.caches| && InUse(db.caches[i], h)
                && (db.caches[i].exportArtifact == Some(a.id) || db.caches[i].reportArtifact == Some(a.id))
  }

  ghost predicate IsLive(a: Artifact) {
    a.status.Some? && a.status.value != "deleted"
  }

  ghost predicate RefersToLive(db: Db, c: CacheRow) {
    exists i :: 0 <= i < |db.artifacts| && IsLive(db.artifacts[i])
                && (c.exportArtifact == Some(db.artifacts[i].id) || c.reportArtifact == Some(db.artifacts[i].id))
  }

  /** The two rows have a worker job or a job in common. */
  ghost predicate Shared(aWorker: Option<Uuid>, aJob: Option<Uuid>, bWorker: Option<Uuid>, bJob: Option<Uuid>) {
    (aWorker.Some? && aWorker == bWorker) || (aJob.Some? && aJob == bJob)
  }

  ghost predicate LiveBeside(db: Db, e: ExportItem) {
    exists i :: 0 <= i < |db.artifacts| && IsLive(db.artifacts[i])
                && Shared(e.workerJobId, e.jobId, db.artifacts[i].workerJobId, db.artifacts[i].jobId)
  }

  ghost predicate InUseBeside(db: Db, h: Horizon, e: ExportItem) {
    exists i :: 0 <= i < |db.caches| && InUse(db.caches[i], h)
                && Shared(e.workerJobId, e.jobId, db.caches[i].workerJobId, db.caches[i].jobId)
  }

  /** Job `i` is the first with the item's worker job id. */
  ghost predicate JoinsAt(jobs: seq<Job>, workerJobId: Option<Uuid>, i: int) {
    && 0 <= i < |jobs| && workerJobId == Some(jobs[i].id)
    && forall k :: 0 <= k < i ==> workerJobId != Some(jobs[k].id)
  }

  /** The first date that is set among the four. */
  ghost predicate FirstDate(finished: Option<int>, updated: Option<int>, created: Option<int>, own: Option<int>,
                            t: int) {
    || finished == Some(t)
    || (finished.None? && updated == Some(t))
    || (finished.None? && updated.None? && created == Some(t))
    || (finished.None? && updated.None? && created.None? && own == Some(t))
  }

  /** `t` dates the item: its job's finish, update or creation, or its own creation. */
  ghost predicate DatedAt(db: Db, e: ExportItem, t: int) {
    || (exists i :: JoinsAt(db.jobs, e.workerJobId, i)
                    && FirstDate(db.jobs[i].finishedAt, db.jobs[i].updatedAt, db.jobs[i].createdAt, e.createdAt, t))
    || ((forall i :: 0 <= i < |db.jobs| ==> e.workerJobId != Some(db.jobs[i].id)) && e.createdAt == Some(t))
  }

  // ---------------------------------------------------------------------
  // The SQL conditions mean these
  // ---------------------------------------------------------------------

  lemma ActiveMeans(j: Job)
    ensures IsActiveJob(j) == Yes <==> IsActive(j.status)
  {
    var list: seq<Option<string>> := [Some("queued"), Some("running"), Some("waiting")];
    assert list[1..] == [Some("running"), Some("waiting")];
    InPair(j.status, Some("running"), Some("waiting"));
  }

  lemma ActiveJobMeans(db: Db, workerJobId: Option<Uuid>, jobId: Option<Uuid>)
    ensures ActiveByMembership(db, workerJobId, jobId) == Yes <==> ActiveJobFor(db, workerJobId, jobId)
    ensures ActiveByExists(db, workerJobId, jobId) == Yes <==> ActiveJobFor(db, workerJobId, jobId)
  {
    ActiveAgrees(db, workerJobId, jobId);
    forall j: Job ensures IsActiveJob(j) == Yes <==> IsActive(j.status) {
      ActiveMeans(j);
    }
  }

  lemma InUseMeans(c: CacheRow, h: Horizon)
    ensures IsRecentCache(c, h) == Yes <==> InUse(c, h)
    ensures IsPendingCache(c) == Yes <==> c.status == Some("pending") || c.status == Some("running")
    ensures IsPendingCache(c) == No <==> c.status.Some? && c.status != Some("pending") && c.status != Some("running")
  {
    InPair(c.status, Some("pending"), Some("running"));
  }

  lemma InUseWithMeans(db: Db, h: Horizon, a: Artifact)
    ensures Or(ExportReferenced(db, h, a), ReportReferenced(db, h, a)) == Yes <==> InUseWith(db, h, a)
    ensures Referenced(db, h, a) == Yes <==> InUseWith(db, h, a)
  {
    forall c: CacheRow ensures IsRecentCache(c, h) == Yes <==> InUse(c, h) {
      InUseMeans(c, h);
    }
    if InUseWith(db, h, a) {
      var i :| 0 <= i < |db.caches| && InUse(db.caches[i], h)
               && (db.caches[i].exportArtifact == Some(a.id) || db.caches[i].reportArtifact == Some(a.id));
      assert db.caches[i] in db.caches;
    }
  }

  lemma RefersToLiveMeans(db: Db, c: CacheRow)
    ensures ReferencedArtifactLives(db, c) == Yes <==> RefersToLive(db, c)
  {
    forall a: Artifact
      ensures In(Some(a.id), [c.exportArtifact, c.reportArtifact]) == Yes <==>
              c.exportArtifact == Some(a.id) || c.reportArtifact == Some(a.id)
    {
      InPair(Some(a.id), c.exportArtifact, c.reportArtifact);
    }
  }

  lemma BesideMeans(db: Db, h: Horizon, e: ExportItem)
    ensures LiveArtifactByMembership(db, e) == Yes <==> LiveBeside(db, e)
    ensures LiveArtifactByExists(db, e) == Yes <==> LiveBeside(db, e)
    ensures CacheByMembership(db, h, e) == Yes <==> InUseBeside(db, h, e)
    ensures CacheByExists(db, h, e) == Yes <==> InUseBeside(db, h, e)
  {
    LiveArtifactAgrees(db, e);
    CacheAgrees(db, h, e);
    forall c: CacheRow ensures IsRecentCache(c, h) == Yes <==> InUse(c, h) {
      InUseMeans(c, h);
    }
  }

  lemma {:induction false} JoinIsFirst(jobs: seq<Job>, workerJobId: Option<Uuid>)
    ensures match JobOf(jobs, workerJobId)
            case None => forall i :: 0 <= i < |jobs| ==> workerJobId != Some(jobs[i].id)
            case Some(j) => exists i :: JoinsAt(jobs, workerJobId, i) && jobs[i] == j
  {
    if jobs == [] {
    } else if workerJobId == Some(jobs[0].id) {
      assert JoinsAt(jobs, workerJobId, 0);
    } else {
      JoinIsFirst(jobs[1..], workerJobId);
      assert forall i :: 1 <= i < |jobs| ==> jobs[1..][i - 1] == jobs[i];
      if JobOf(jobs[1..], workerJobId).Some? {
        var i :| JoinsAt(jobs[1..], workerJobId, i) && jobs[1..][i] == JobOf(jobs, workerJobId).value;
        assert JoinsAt(jobs, workerJobId, i + 1);
      }
    }
  }

  lemma RecencyMeans(db: Db, e: ExportItem, t: int)
    ensures Recency(db, e) == Some(t) <==> DatedAt(db, e, t)
  {
    JoinIsFirst(db.jobs, e.workerJobId);
    if JobOf(db.jobs, e.workerJobId).Some? {
      var i :| JoinsAt(db.jobs, e.workerJobId, i) && db.jobs[i] == JobOf(db.jobs, e.workerJobId).value;
      assert forall k :: JoinsAt(db.jobs, e.workerJobId, k) ==> k == i;
    }
  }

  // ---------------------------------------------------------------------
  // The reasons
  // ---------------------------------------------------------------------

  /** An artifact that no flag, status or date of its own protects. */
  ghost predicate IsExpired(a: Artifact, h: Horizon) {
    && a.pinned != Some(true) && (a.status == Some("ready") || a.status == None)
    && a.expiresAt.Some? && a.expiresAt.value <= h.now
  }

  /** The reasons an artifact's own columns give, in the order of precedence. */
  lemma OwnReasons(db: Db, h: Horizon, a: Artifact)
    ensures
      var r := ArtifactReason(db, h, a);
      var open := a.pinned != Some(true) && (a.status == Some("ready") || a.status == None);
      && (r == Pinned <==> a.pinned == Some(true))
      && (r == AlreadyDeleted <==> a.pinned != Some(true) && a.status == Some("deleted"))
      && (r == NotReady <==> a.pinned != Some(true) && a.status.Some? && a.status.value !in ["deleted", "ready"])
      && (r == MissingExpiry <==> open && a.expiresAt == None)
      && (r == FutureExpiry <==> open && a.expiresAt.Some? && a.expiresAt.value > h.now)
      && (r in {ActiveParent, CacheReference, Eligible} <==> IsExpired(a, h))
  {
    assert "ready" != "deleted";
  }

  /** Then those the other tables give. */
  lemma ArtifactReasons(db: Db, h: Horizon, a: Artifact)
    ensures
      var r := ArtifactReason(db, h, a);
      var active := ActiveJobFor(db, a.workerJobId, a.jobId);
      && (r == ActiveParent <==> IsExpired(a, h) && active)
      && (r == CacheReference <==> IsExpired(a, h) && !active && InUseWith(db, h, a))
      && (r == Eligible <==> IsExpired(a, h) && !active && !InUseWith(db, h, a))
  {
    OwnReasons(db, h, a);
    ActiveJobMeans(db, a.workerJobId, a.jobId);
    InUseWithMeans(db, h, a);
  }

  /** Every reason of a request-cache row. */
  lemma CacheReasons(db: Db, h: Horizon, c: CacheRow)
    ensures
      var r := CacheReason(db, h, c);
      var pending := c.status == Some("pending") || c.status == Some("running");
      var active := ActiveJobFor(db, c.workerJobId, c.jobId);
      && (r == ActiveCache <==> pending)
      && (r == RecentAccess <==> !pending && c.lastAccessed.Some? && c.lastAccessed.value >= h.cacheCutoff)
      && (r == ActiveParent <==> !InUse(c, h) && active)
      && (r == LiveArtifact <==> !InUse(c, h) && !active && RefersToLive(db, c))
      && (r == Eligible <==> !InUse(c, h) && !active && !RefersToLive(db, c))
  {
    InUseMeans(c, h);
    ActiveJobMeans(db, c.workerJobId, c.jobId);
    RefersToLiveMeans(db, c);
  }

  ghost predicate IsRecentItem(db: Db, h: Horizon, e: ExportItem) {
    exists t :: DatedAt(db, e, t) && t >= h.jobCutoff
  }

  lemma RecentItemMeans(db: Db, h: Horizon, e: ExportItem)
    ensures AtLeast(Recency(db, e), h.jobCutoff) == Yes <==> IsRecentItem(db, h, e)
    ensures Below(Recency(db, e), h.jobCutoff) == Yes <==> exists t :: DatedAt(db, e, t) && t < h.jobCutoff
  {
    forall t ensures Recency(db, e) == Some(t) <==> DatedAt(db, e, t) {
      RecencyMeans(db, e, t);
    }
    if Recency(db, e).Some? {
      assert DatedAt(db, e, Recency(db, e).value);
    }
  }

  /** Every reason of an export item. */
  lemma ItemReasons(db: Db, h: Horizon, e: ExportItem)
    ensures
      var r := ItemReason(db, h, e);
      var active := ActiveJobFor(db, e.workerJobId, e.jobId);
      var live, used := LiveBeside(db, e), InUseBeside(db, h, e);
      && (r == ActiveParent <==> active)
      && (r == LiveArtifact <==> !active && live)
      && (r == CacheReference <==> !active && !live && used)
      && (r == RecentItem <==> !active && !live && !used && IsRecentItem(db, h, e))
      && (r == Eligible <==> !active && !live && !used && !IsRecentItem(db, h, e))
  {
    ActiveJobMeans(db, e.workerJobId, e.jobId);
    BesideMeans(db, h, e);
    RecentItemMeans(db, h, e);
  }

  /** What the deleting queries select. */
  lemma SelectedMeans(db: Db, h: Horizon)
    ensures forall a :: ArtifactSelected(db, h, a) == Yes <==>
      && a.status == Some("ready") && a.pinned == Some(false) && a.expiresAt.Some? && a.expiresAt.value <= h.now
      && !ActiveJobFor(db, a.workerJobId, a.jobId) && !InUseWith(db, h, a)
    ensures forall c :: CacheSelected(db, h, c) == Yes <==>
      && c.status.Some? && c.lastAccessed.Some? && !InUse(c, h)
      && !ActiveJobFor(db, c.workerJobId, c.jobId) && !RefersToLive(db, c)
    ensures forall e :: ItemSelected(db, h, e) == Yes <==>
      && (exists t :: DatedAt(db, e, t) && t < h.jobCutoff)
      && !ActiveJobFor(db, e.workerJobId, e.jobId) && !LiveBeside(db, e) && !InUseBeside(db, h, e)
  {
    forall a ensures ArtifactSelected(db, h, a) == Yes <==>
      && a.status == Some("ready") && a.pinned == Some(false) && a.expiresAt.Some? && a.expiresAt.value <= h.now
      && !ActiveJobFor(db, a.workerJobId, a.jobId) && !InUseWith(db, h, a)
    {
      ActiveJobMeans(db, a.workerJobId, a.jobId);
      InUseWithMeans(db, h, a);
    }
    forall c ensures CacheSelected(db, h, c) == Yes <==>
      && c.status.Some? && c.lastAccessed.Some? && !InUse(c, h)
      && !ActiveJobFor(db, c.workerJobId, c.jobId) && !RefersToLive(db, c)
    {
      InUseMeans(c, h);
      ActiveJobMeans(db, c.workerJobId, c.jobId);
      RefersToLiveMeans(db, c);
    }
    forall e ensures ItemSelected(db, h, e) == Yes <==>
      && (exists t :: DatedAt(db, e, t) && t < h.jobCutoff)
      && !ActiveJobFor(db, e.workerJobId, e.jobId) && !LiveBeside(db, e) && !InUseBeside(db, h, e)
    {
      ActiveJobMeans(db, e.workerJobId, e.jobId);
      BesideMeans(db, h, e);
      RecentItemMeans(db, h, e);
    }
  }

  // ---------------------------------------------------------------------
  // The groups of the report
  // ---------------------------------------------------------------------

  ghost function ArtifactsWith(db: Db, h: Horizon, rows: seq<Artifact>, reason: Reason): seq<Artifact> {
    if rows == [] then []
    else if ArtifactReason(db, h, rows[0]) == reason then [rows[0]] + ArtifactsWith(db, h, rows[1..], reason)
    else ArtifactsWith(db, h, rows[1..], reason)
  }

  ghost function CachesWith(db: Db, h: Horizon, rows: seq<CacheRow>, reason: Reason): seq<CacheRow> {
    if rows == [] then []
    else if CacheReason(db, h, rows[0]) == reason then [rows[0]] + CachesWith(db, h, rows[1..], reason)
    else CachesWith(db, h, rows[1..], reason)
  }

  ghost function ItemsWith(db: Db, h: Horizon, rows: seq<ExportItem>, reason: Reason): seq<ExportItem> {
    if rows == [] then []
    else if ItemReason(db, h, rows[0]) == reason then [rows[0]] + ItemsWith(db, h, rows[1..], reason)
    else ItemsWith(db, h, rows[1..], reason)
  }

  lemma {:induction false} GroupJoins(a: seq<Line>, b: seq<Line>, area: Area, reason: Reason, of: Measure)
    ensures Group(a + b, area, reason, of) == Group(a, area, reason, of) + Group(b, area, reason, of)
  {
    if a == [] {
      assert a + b == b;
    } else {
      GroupJoins(a[1..], b, area, reason, of);
      assert (a + b)[1..] == a[1..] + b;
    }
  }

  lemma {:induction false} OtherArea(lines: seq<Line>, area: Area, reason: Reason, of: Measure)
    requires forall i :: 0 <= i < |lines| ==> lines[i].area != area
    ensures Group(lines, area, reason, of) == 0
    decreases |lines|
  {
    if lines == [] {
    } else {
      OtherArea(lines[1..], area, reason, of);
    }
  }

  lemma {:induction false} ArtifactGroup(db: Db, h: Horizon, rows: seq<Artifact>, reason: Reason)
    ensures var lines, those := ArtifactLines(db, h, rows), ArtifactsWith(db, h, rows, reason);
            && Group(lines, Artifacts, reason, OneRow) == |those|
            && Group(lines, Artifacts, reason, BytesOf) == SumOf(ByteColumn(those))
  {
    if rows == [] {
    } else {
      ArtifactGroup(db, h, rows[1..], reason);
      var those := ArtifactsWith(db, h, rows, reason);
      assert ArtifactLines(db, h, rows)[1..] == ArtifactLines(db, h, rows[1..]);
      if ArtifactReason(db, h, rows[0]) == reason {
        assert ByteColumn(those)[1..] == ByteColumn(those[1..]);
      }
    }
  }

  lemma {:induction false} CacheGroup(db: Db, h: Horizon, rows: seq<CacheRow>, reason: Reason)
    ensures var lines, those := CacheLines(db, h, rows), CachesWith(db, h, rows, reason);
            && Group(lines, RequestCache, reason, OneRow) == |those|
            && Group(lines, RequestCache, reason, HitsOf) == SumOf(HitColumn(those))
  {
    if rows == [] {
    } else {
      CacheGroup(db, h, rows[1..], reason);
      var those := CachesWith(db, h, rows, reason);
      assert CacheLines(db, h, rows)[1..] == CacheLines(db, h, rows[1..]);
      if CacheReason(db, h, rows[0]) == reason {
        assert HitColumn(those)[1..] == HitColumn(those[1..]);
      }
    }
  }

  lemma {:induction false} ItemGroup(db: Db, h: Horizon, rows: seq<ExportItem>, reason: Reason)
    ensures Group(ItemLines(db, h, rows), ExportItems, reason, OneRow) == |ItemsWith(db, h, rows, reason)|
  {
    if rows == [] {
    } else {
      ItemGroup(db, h, rows[1..], reason);
      assert ItemLines(db, h, rows)[1..] == ItemLines(db, h, rows[1..]);
    }
  }

  /** One table's part of a group is the group's part in that table. */
  lemma GroupInTable(db: Db, h: Horizon, reason: Reason, of: Measure)
    ensures var a, c, e := ArtifactLines(db, h, db.artifacts), CacheLines(db, h, db.caches), ItemLines(db, h, db.items);
            && Group(Classified(db, h), Artifacts, reason, of) == Group(a, Artifacts, reason, of)
            && Group(Classified(db, h), RequestCache, reason, of) == Group(c, RequestCache, reason, of)
            && Group(Classified(db, h), ExportItems, reason, of) == Group(e, ExportItems, reason, of)
  {
    var a, c, e := ArtifactLines(db, h, db.artifacts), CacheLines(db, h, db.caches), ItemLines(db, h, db.items);
    forall area ensures Group(a + c + e, area, reason, of)
      == Group(a, area, reason, of) + Group(c, area, reason, of) + Group(e, area, reason, of)
    {
      GroupJoins(a + c, e, area, reason, of);
      GroupJoins(a, c, area, reason, of);
    }
    OtherArea(a, RequestCache, reason, of);
    OtherArea(a, ExportItems, reason, of);
    OtherArea(c, Artifacts, reason, of);
    OtherArea(c, ExportItems, reason, of);
    OtherArea(e, Artifacts, reason, of);
    OtherArea(e, RequestCache, reason, of);
  }

  /** Each group counts the rows of its table that have its reason, and adds up their bytes or hits. */
  lemma ReportGroups(db: Db, h: Horizon, reason: Reason)
    ensures var lines := Classified(db, h);
            var a, c := ArtifactsWith(db, h, db.artifacts, reason), CachesWith(db, h, db.caches, reason);
            && Group(lines, Artifacts, reason, OneRow) == |a|
            && Group(lines, Artifacts, reason, BytesOf) == SumOf(ByteColumn(a))
            && Group(lines, RequestCache, reason, OneRow) == |c|
            && Group(lines, RequestCache, reason, HitsOf) == SumOf(HitColumn(c))
            && Group(lines, ExportItems, reason, OneRow) == |ItemsWith(db, h, db.items, reason)|
  {
    GroupInTable(db, h, reason, OneRow);
    GroupInTable(db, h, reason, BytesOf);
    GroupInTable(db, h, reason, HitsOf);
    ArtifactGroup(db, h, db.artifacts, reason);
    CacheGroup(db, h, db.caches, reason);
    ItemGroup(db, h, db.items, reason);
  }
}
