/** The cache object and its service client
    (crates/solver-core/src/cache.rs, crates/solver-core/src/service.rs). */
module FactorizationCache {
  import opened Wrappers
  import opened CacheModel
  import opened CacheRecency

  datatype Admission = Admitted(bytes: nat) | Rejected(bytes: nat, capacity: nat)

  /** `oldest` is the first in eviction order among the sized entries of `seen`. */
  ghost predicate OldestOf(entries: Entries, seen: set<Key>, oldest: Option<Key>) {
    match oldest
    case None => forall o :: o in seen ==> !Sized(entries, o)
    case Some(k) =>
      k in seen && Sized(entries, k)
      && forall o :: o in seen && Sized(entries, o) && o != k ==> Older(entries, k, o)
  }

  /** Least recently used sized entry, ties broken by factorization id. */
  method FindOldest(entries: Entries) returns (oldest: Option<Key>)
    ensures match oldest
            case Some(k) => IsOldest(entries, k)
            case None => SizedKeys(entries) == {}
  {
    oldest := None;
    var left := entries.Keys;
    ghost var seen: set<Key> := {};
    while left != {}
      invariant seen + left == entries.Keys && seen !! left
      invariant OldestOf(entries, seen, oldest)
      decreases |left|
    {
      var k :| k in left;
      left, seen := left - {k}, seen + {k};
      if entries[k].bytes > 0 && (oldest.None? || Older(entries, k, oldest.value)) {
        oldest := Some(k);
      }
    }
    assert seen == entries.Keys;
  }

  lemma OldestIsUnique(entries: Entries, k: Key)
    requires IsOldest(entries, k)
    ensures SizedKeys(entries) != {} && Oldest(entries) == k
  {
    assert k in SizedKeys(entries);
    var o := Oldest(entries);
  }

  /** One turn of the eviction loop. */
  lemma EvictTurn(c: Cache, bytes: nat, victim: Key)
    requires WellKept(c) && IsOldest(c.entries, victim) && AddUsize(c.resident, bytes) > c.capacity
    ensures EvictFor(c, bytes) == EvictFor(Evict(c, victim), bytes)
    ensures WellKept(Evict(c, victim)) && (Accounted(c) ==> Accounted(Evict(c, victim)))
    ensures |Evict(c, victim).entries| < |c.entries|
  {
    OldestIsUnique(c.entries, victim);
    RemoveKeepsAccount(c, victim);
    assert (c.entries - {victim}).Keys == c.entries.Keys - {victim};
  }

  /** The keys of one model version, in whatever order the hash map yields. */
  method ListModel(entries: Entries, model: nat) returns (keys: seq<Key>)
    ensures forall i, j :: 0 <= i < j < |keys| ==> keys[i] != keys[j]
    ensures forall k :: k in keys <==> k in entries && k.model == model
  {
    keys := [];
    var left := set k | k in entries && k.model == model;
    while left != {}
      invariant forall i, j :: 0 <= i < j < |keys| ==> keys[i] != keys[j]
      invariant forall k :: k in keys ==> k !in left
      invariant forall k :: k in keys || k in left <==> k in entries && k.model == model
      decreases |left|
    {
      var k :| k in left;
      left := left - {k};
      keys := keys + [k];
    }
  }

  /** Each method is one step under the cache's lock. */
  class SharedCache {
    const capacity: nat
    var entries: Entries
    var resident: nat
    var clock: nat
    var evictions: nat
    var invalidations: nat
    var rejections: nat
    var hits: nat
    var misses: nat

    ghost function View(): Cache
      reads this
    {
      Cache(entries, capacity, resident, clock, evictions, invalidations, rejections, hits, misses)
    }

    /** The byte account holds unless the capacity is the word maximum. */
    ghost predicate Valid()
      reads this
    {
      WellKept(View()) && (capacity < USIZE_MAX ==> Accounted(View()))
    }

    constructor (capacity: nat)
      requires capacity <= USIZE_MAX
      ensures Valid() && View() == EmptyCache(capacity)
    {
      this.capacity := capacity;
      entries := map[];
      resident, clock := 0, 0;
      evictions, invalidations, rejections, hits, misses := 0, 0, 0, 0, 0;
    }

    method NextAccess() returns (access: nat)
      modifies this`clock
      ensures access == clock == AddU64(old(clock), 1)
    {
      clock := AddU64(clock, 1);
      access := clock;
    }

    method Remove(k: Key)
      modifies this`entries, this`resident
      ensures View() == RemoveEntry(old(View()), k)
    {
      if k in entries {
        resident := SubUsize(resident, entries[k].bytes);
        entries := entries - {k};
      }
    }

    method Replace(k: Key, state: State)
      requires Valid() && state != Ready
      modifies this
      ensures Valid() && View() == Mark(old(View()), k, state)
    {
      MarkKeepsAccount(View(), k, state);
      Remove(k);
      var access := NextAccess();
      entries := entries[k := Entry(None, state, 0, access)];
    }

    method SetBuilding(k: Key)
      requires Valid()
      modifies this
      ensures Valid() && View() == Apply(old(View()), OpBuilding(k))
    {
      Replace(k, Building);
    }

    method SetFailed(k: Key)
      requires Valid()
      modifies this
      ensures Valid() && View() == Apply(old(View()), OpFailed(k))
    {
      Replace(k, Failed);
    }

    method EvictOne(victim: Key)
      modifies this
      ensures View() == Evict(old(View()), victim)
    {
      Remove(victim);
      evictions := AddU64(evictions, 1);
    }

    /** The eviction loop; it never leaves through its `break`. */
    method MakeRoom(bytes: nat)
      requires Valid() && bytes <= capacity
      modifies this
      ensures Valid() && View() == EvictFor(old(View()), bytes)
      ensures capacity < USIZE_MAX ==> resident + bytes <= capacity
    {
      ghost var start := View();
      EvictKeepsAccount(start, bytes);
      while AddUsize(resident, bytes) > capacity
        invariant Valid() && EvictFor(View(), bytes) == EvictFor(start, bytes)
        decreases |entries|
      {
        var victim := FindOldest(entries);
        VictimExists(View(), bytes);
        if victim.None? {
          assert false;
          break;
        }
        EvictTurn(View(), bytes, victim.value);
        EvictOne(victim.value);
      }
    }

    method SetReady(k: Key, m: Prepared) returns (admission: Admission)
      requires Valid() && m.bytes <= USIZE_MAX
      modifies this
      ensures Valid() && View() == Apply(old(View()), OpReady(k, m))
      ensures admission == if m.bytes > capacity then Rejected(m.bytes, capacity) else Admitted(m.bytes)
    {
      SetReadyKeepsAccount(View(), k, m);
      RemoveKeepsAccount(View(), k);
      Remove(k);
      if m.bytes > capacity {
        rejections := AddU64(rejections, 1);
        var access := NextAccess();
        entries := entries[k := Entry(None, Failed, 0, access)];
        return Rejected(m.bytes, capacity);
      }
      MakeRoom(m.bytes);
      var access := NextAccess();
      resident := AddUsize(resident, m.bytes);
      entries := entries[k := Entry(Some(m), Ready, m.bytes, access)];
      admission := Admitted(m.bytes);
    }

    method MarkAllStale(keys: seq<Key>)
      requires Valid()
      modifies this
      ensures Valid() && View() == MarkStale(old(View()), keys) && invalidations == old(invalidations)
    {
      ghost var start := View();
      for i := 0 to |keys|
        invariant Valid() && View() == MarkStale(start, keys[..i]) && invalidations == start.invalidations
      {
        assert keys[..i + 1][..i] == keys[..i];
        Replace(keys[i], Stale);
      }
      assert keys[..|keys|] == keys;
    }

    /** Marks every entry of a model version stale, in hash-map order. */
    method InvalidateModel(model: nat) returns (count: nat, ghost keys: seq<Key>)
      requires Valid()
      modifies this
      ensures ListsModel(old(View()), model, keys) && count == |keys|
      ensures Valid() && View() == Apply(old(View()), OpInvalidate(model, keys))
    {
      var listed := ListModel(entries, model);
      keys := listed;
      MarkAllStale(listed);
      StaleKeepsAccount(old(View()), listed);
      invalidations := AddU64(invalidations, |listed|);
      count := |listed|;
    }

    method GetReady(k: Key) returns (prepared: Option<Prepared>)
      requires Valid()
      modifies this
      ensures Valid() && View() == Apply(old(View()), OpGet(k))
      ensures prepared == Lookup(old(View()), k)
    {
      GetKeepsAccount(View(), k);
      prepared := if k in entries && entries[k].state == Ready then entries[k].prepared else None;
      if prepared.Some? {
        var access := NextAccess();
        entries := entries[k := entries[k].(lastAccess := access)];
        hits := AddU64(hits, 1);
      } else {
        misses := AddU64(misses, 1);
      }
    }
  }

  // ---------------------------------------------------------------------
  // The service as a client of the cache
  // ---------------------------------------------------------------------

  /** How building one model turns out, step by step. */
  datatype Workload = Workload(dataBuilds: bool, structureValid: bool, estimate: nat, factorized: Option<Prepared>)

  datatype PrepareResult =
    | PrepareOk(bytes: nat)
    | DataError | ValidationFailed | WorkloadRejected | FactorizationFailed | AdmissionRejected

  /** The cache step a `prepare` ends with, after marking the key as building; between the two
      other callers may take theirs. */
  function PrepareEnd(k: Key, load: Workload, capacity: nat): Option<Op> {
    if !load.dataBuilds then None
    else if !load.structureValid || load.estimate > capacity || load.factorized.None? then Some(OpFailed(k))
    else Some(OpReady(k, load.factorized.value))
  }

  /** What a `prepare` returns. The cache has no say in it but for its fixed capacity, so neither have
      other callers. */
  function PrepareOutcome(load: Workload, capacity: nat): PrepareResult {
    if !load.dataBuilds then DataError
    else if !load.structureValid then ValidationFailed
    else if load.estimate > capacity then WorkloadRejected
    else if load.factorized.None? then FactorizationFailed
    else if load.factorized.value.bytes > capacity then AdmissionRejected
    else PrepareOk(load.factorized.value.bytes)
  }

  /** `prepare` among any other callers: whatever steps they took before and in between, right after
      its own last step the key holds exactly the model it built if it returns success, and is failed
      otherwise; there is no last step exactly for a data error, and the key is then building as long
      as no other caller has set it. */
  lemma PrepareInterleaved(capacity: nat, h: History, k: Key, load: Workload)
    requires Possible(capacity, h)
    requires load.factorized.Some? ==> load.factorized.value.bytes <= USIZE_MAX
    ensures match PrepareEnd(k, load, capacity)
            case None =>
              && PrepareOutcome(load, capacity).DataError?
              && (BuildingLast(h, k) <==> IsBuilding(CacheAfter(capacity, h).entries, k))
            case Some(op) =>
              var done := CacheAfter(capacity, After(h, op));
              var built := PrepareOutcome(load, capacity).PrepareOk?;
              && !PrepareOutcome(load, capacity).DataError?
              && Possible(capacity, After(h, op)) && k in done.entries
              && done.entries[k].state == (if built then Ready else Failed)
              && Lookup(done, k) == (if built then load.factorized else None)
  {
    EveryRunAccounts(capacity, h);
    match PrepareEnd(k, load, capacity)
    case None => BuildingIsMarkedLast(capacity, h, k);
    case Some(op) =>
  }

  /** `prepare` without interference. A data error leaves the key building; every other failure
      leaves it failed; success leaves exactly the new model to be found. */
  method Prepare(cache: SharedCache, k: Key, load: Workload) returns (result: PrepareResult)
    requires cache.Valid()
    requires load.factorized.Some? ==> load.factorized.value.bytes <= USIZE_MAX
    modifies cache
    ensures cache.Valid()
    ensures cache.View() ==
      var building := Apply(old(cache.View()), OpBuilding(k));
      match PrepareEnd(k, load, cache.capacity)
      case None => building
      case Some(op) => Apply(building, op)
    ensures k in cache.entries
    ensures result == PrepareOutcome(load, cache.capacity)
    ensures cache.View() ==
      var building := Mark(old(cache.View()), k, Building);
      if result == DataError then building
      else if result.PrepareOk? || result == AdmissionRejected then SetReady(building, k, load.factorized.value)
      else Mark(building, k, Failed)
    ensures result == DataError <==> !load.dataBuilds
    ensures result == ValidationFailed <==> load.dataBuilds && !load.structureValid
    ensures result == WorkloadRejected <==> load.dataBuilds && load.structureValid && load.estimate > cache.capacity
    ensures result == FactorizationFailed <==>
      load.dataBuilds && load.structureValid && load.estimate <= cache.capacity && load.factorized == None
    ensures result.PrepareOk? || result == AdmissionRejected <==>
      load.dataBuilds && load.structureValid && load.estimate <= cache.capacity && load.factorized.Some?
    ensures result == AdmissionRejected ==> load.factorized.value.bytes > cache.capacity
    ensures result.PrepareOk? ==> result.bytes == load.factorized.value.bytes <= cache.capacity
    ensures cache.entries[k].state ==
      if result.PrepareOk? then Ready else if result.DataError? then Building else Failed
    ensures Lookup(cache.View(), k) == if result.PrepareOk? then load.factorized else None
  {
    cache.SetBuilding(k);
    if !load.dataBuilds {
      return DataError;
    }
    if !load.structureValid {
      cache.SetFailed(k);
      return ValidationFailed;
    }
    if load.estimate > cache.capacity {
      cache.SetFailed(k);
      return WorkloadRejected;
    }
    if load.factorized.None? {
      cache.SetFailed(k);
      return FactorizationFailed;
    }
    var admission := cache.SetReady(k, load.factorized.value);
    result := match admission case Admitted(bytes) => PrepareOk(bytes) case Rejected(_, _) => AdmissionRejected;
  }
}
