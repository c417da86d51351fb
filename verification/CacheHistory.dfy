/** What the factorization cache says of a history: states, eviction order and counters, on the steps
    alone (crates/solver-core/src/cache.rs). */
module CacheHistory {
  import opened Wrappers
  import opened CacheModel
  import opened CacheRecency

  // ---------------------------------------------------------------------
  // Single steps
  // ---------------------------------------------------------------------

  /** A step that does not set `k` keeps its entry, up to the access time a lookup of it renews, or
      evicts it when it holds bytes. */
  lemma UntouchedEntry(c: Cache, op: Op, k: Key)
    requires WellKept(c) && !Touches(op, k)
    requires op.OpInvalidate? ==> ListsModel(c, op.model, op.keys)
    ensures k in Apply(c, op).entries ==> k in c.entries
    ensures k in Apply(c, op).entries && op != OpGet(k) ==> Apply(c, op).entries[k] == c.entries[k]
    ensures k in c.entries && c.entries[k].bytes == 0 ==> k in Apply(c, op).entries
    ensures k in c.entries && op == OpGet(k) ==> k in Apply(c, op).entries
    ensures k in Apply(c, op).entries ==>
      Apply(c, op).entries[k] == c.entries[k].(lastAccess := Apply(c, op).entries[k].lastAccess)
  {
    match op
    case OpBuilding(o) => MarkKeepsAccount(c, o, Building);
    case OpFailed(o) => MarkKeepsAccount(c, o, Failed);
    case OpReady(o, m) =>
      var d := RemoveEntry(c, o);
      RemoveKeepsAccount(c, o);
      EvictKeepsAccount(d, m.bytes);
      if k in c.entries && c.entries[k].bytes == 0 {
        EvictKeepsUnsized(d, m.bytes, k);
      }
    case OpInvalidate(_, keys) => StaleMeansMarked(c, keys, k);
    case OpGet(_) =>
  }

  // ---------------------------------------------------------------------
  // States
  // ---------------------------------------------------------------------

  ghost predicate HasState(c: Cache, k: Key, state: State) {
    k in c.entries && c.entries[k].state == state
  }

  /** What a step that sets `k` makes of it. */
  ghost predicate Makes(capacity: nat, h: History, op: Op, k: Key, state: State) {
    match op
    case OpBuilding(_) => state == Building
    case OpFailed(_) => state == Failed
    case OpReady(_, m) => state == (if m.bytes > capacity then Failed else Ready)
    case OpInvalidate(_, _) => state == Stale && k in CacheAfter(capacity, h).entries
    case OpGet(_) => false
  }

  /** The last step that set `k` made it `state`; only a ready key can have been evicted since. */
  ghost predicate MadeLast(capacity: nat, h: History, k: Key, state: State) {
    h.After?
    && if Touches(h.op, k) then Makes(capacity, h.earlier, h.op, k, state)
       else MadeLast(capacity, h.earlier, k, state) && (state == Ready ==> k in CacheAfter(capacity, h).entries)
  }

  /** In every interleaving a key has the state that the last step to set it gave it. */
  lemma {:induction false} StateIsMadeLast(capacity: nat, h: History, k: Key, state: State)
    requires Possible(capacity, h)
    ensures HasState(CacheAfter(capacity, h), k, state) <==> MadeLast(capacity, h, k, state)
  {
    if h.Begin? {
    } else {
      var c := CacheAfter(capacity, h.earlier);
      EveryRunAccounts(capacity, h.earlier);
      StateIsMadeLast(capacity, h.earlier, k, state);
      if !Touches(h.op, k) {
        UntouchedEntry(c, h.op, k);
      } else if h.op.OpInvalidate? {
        StaleMeansMarked(c, h.op.keys, k);
      }
    }
  }

  // ---------------------------------------------------------------------
  // Eviction order
  // ---------------------------------------------------------------------

  ghost function Steps(h: History): nat {
    if h.Begin? then 0 else Steps(h.earlier) + 1
  }

  /** The last step is a use of `k`: it stores a model under `k`, or looks it up and finds one. */
  ghost predicate UsesNow(capacity: nat, h: History, k: Key) {
    h.After?
    && (|| (h.op.OpReady? && h.op.key == k && h.op.prepared.bytes <= capacity)
        || (h.op == OpGet(k) && HasState(CacheAfter(capacity, h.earlier), k, Ready)))
  }

  /** How many steps had been taken with the last use of `k`. */
  ghost function LastUse(capacity: nat, h: History, k: Key): nat {
    if h.Begin? then 0 else if UsesNow(capacity, h, k) then Steps(h) else LastUse(capacity, h.earlier, k)
  }

  lemma {:induction false} UseIsPast(capacity: nat, h: History, k: Key)
    ensures LastUse(capacity, h, k) <= Steps(h)
  {
    if h.Begin? {
    } else {
      UseIsPast(capacity, h.earlier, k);
    }
  }

  /** An entry with bytes keeps its access time but for a use, which gives it the latest. */
  lemma SizedAccess(capacity: nat, h: History, k: Key)
    requires Possible(capacity, h) && h.After? && CacheAfter(capacity, h).clock < U64_MAX
    requires Sized(CacheAfter(capacity, h).entries, k)
    ensures var c, d := CacheAfter(capacity, h.earlier), CacheAfter(capacity, h);
            if UsesNow(capacity, h, k) then c.clock < d.entries[k].lastAccess <= d.clock
            else Sized(c.entries, k) && d.entries[k] == c.entries[k] && d.entries[k].lastAccess <= c.clock
  {
    var c := CacheAfter(capacity, h.earlier);
    EveryRunAccounts(capacity, h.earlier);
    EveryRunAccounts(capacity, h);
    ClockRises(c, h.op);
    if !Touches(h.op, k) {
      UntouchedEntry(c, h.op, k);
    } else {
      match h.op
      case OpReady(_, m) => EvictKeepsAccount(RemoveEntry(c, k), m.bytes);
      case OpInvalidate(_, keys) => StaleMeansMarked(c, keys, k);
      case _ =>
    }
  }

  /** In every interleaving, while the access clock has not saturated, of two entries that hold bytes
      the one used longer ago is evicted first. */
  lemma {:induction false} EvictionFollowsUse(capacity: nat, h: History, a: Key, b: Key)
    requires Possible(capacity, h) && CacheAfter(capacity, h).clock < U64_MAX && a != b
    requires Sized(CacheAfter(capacity, h).entries, a) && Sized(CacheAfter(capacity, h).entries, b)
    ensures CacheAfter(capacity, h).entries[a].lastAccess != CacheAfter(capacity, h).entries[b].lastAccess
    ensures Older(CacheAfter(capacity, h).entries, a, b) <==> LastUse(capacity, h, a) < LastUse(capacity, h, b)
  {
    var c := CacheAfter(capacity, h.earlier);
    SizedAccess(capacity, h, a);
    SizedAccess(capacity, h, b);
    UseIsPast(capacity, h.earlier, a);
    UseIsPast(capacity, h.earlier, b);
    EveryRunAccounts(capacity, h.earlier);
    ClockRises(c, h.op);
    if !UsesNow(capacity, h, a) && !UsesNow(capacity, h, b) {
      EvictionFollowsUse(capacity, h.earlier, a, b);
    }
  }

  // ---------------------------------------------------------------------
  // Resident bytes
  // ---------------------------------------------------------------------

  /** The account may fall short of the entry sizes, never exceed them. */
  ghost predicate NotOverstated(c: Cache) {
    WellKept(c) && c.resident <= TotalBytes(c.entries)
  }

  lemma RemoveNotOverstated(c: Cache, k: Key)
    requires NotOverstated(c)
    ensures NotOverstated(RemoveEntry(c, k)) && k !in RemoveEntry(c, k).entries
  {
    RemoveKeepsAccount(c, k);
    if k in c.entries {
      TotalWithout(c.entries, k);
    }
  }

  lemma MarkNotOverstated(c: Cache, k: Key, state: State)
    requires NotOverstated(c) && state != Ready
    ensures NotOverstated(Mark(c, k, state))
  {
    RemoveNotOverstated(c, k);
    InsertKeepsAccount(RemoveEntry(c, k), k, None, state, 0);
  }

  lemma {:induction false} EvictNotOverstated(c: Cache, bytes: nat)
    requires NotOverstated(c)
    ensures NotOverstated(EvictFor(c, bytes)) && EvictFor(c, bytes).entries.Keys <= c.entries.Keys
    decreases |c.entries|
  {
    if AddUsize(c.resident, bytes) <= c.capacity || SizedKeys(c.entries) == {} {
    } else {
      var victim := Oldest(c.entries);
      RemoveNotOverstated(c, victim);
      assert (c.entries - {victim}).Keys == c.entries.Keys - {victim};
      EvictNotOverstated(Evict(c, victim), bytes);
    }
  }

  lemma ReadyNotOverstated(c: Cache, k: Key, m: Prepared)
    requires NotOverstated(c)
    ensures NotOverstated(SetReady(c, k, m))
  {
    var d := RemoveEntry(c, k);
    RemoveNotOverstated(c, k);
    if m.bytes > c.capacity {
      InsertKeepsAccount(d.(rejections := AddU64(c.rejections, 1)), k, None, Failed, 0);
    } else {
      EvictNotOverstated(d, m.bytes);
      var e := EvictFor(d, m.bytes);
      InsertKeepsAccount(e.(resident := AddUsize(e.resident, m.bytes)), k, Some(m), Ready, m.bytes);
    }
  }

  lemma {:induction false} StaleNotOverstated(c: Cache, keys: seq<Key>)
    requires NotOverstated(c)
    ensures NotOverstated(MarkStale(c, keys))
  {
    if keys == [] {
    } else {
      StaleNotOverstated(c, keys[..|keys| - 1]);
      MarkNotOverstated(MarkStale(c, keys[..|keys| - 1]), keys[|keys| - 1], Stale);
    }
  }

  lemma GetNotOverstated(c: Cache, k: Key)
    requires NotOverstated(c)
    ensures NotOverstated(GetReady(c, k))
  {
    GetKeepsAccount(c, k);
    if Lookup(c, k).Some? {
      var touched := c.entries[k].(lastAccess := AddU64(c.clock, 1));
      TotalWithout(c.entries, k);
      TotalAfterInsert(c.entries - {k}, k, touched);
      assert (c.entries - {k})[k := touched] == c.entries[k := touched];
    }
  }

  /** Whatever the capacity, the word maximum included, no interleaving overstates the resident bytes. */
  lemma {:induction false} EveryRunUnderstates(capacity: nat, h: History)
    requires Possible(capacity, h)
    ensures NotOverstated(CacheAfter(capacity, h))
  {
    if h.Begin? {
    } else {
      EveryRunUnderstates(capacity, h.earlier);
      var c := CacheAfter(capacity, h.earlier);
      match h.op
      case OpBuilding(k) => MarkNotOverstated(c, k, Building);
      case OpReady(k, m) => ReadyNotOverstated(c, k, m);
      case OpFailed(k) => MarkNotOverstated(c, k, Failed);
      case OpInvalidate(_, keys) => StaleNotOverstated(c, keys);
      case OpGet(k) => GetNotOverstated(c, k);
    }
  }

  // ---------------------------------------------------------------------
  // Counters
  // ---------------------------------------------------------------------

  /** The greatest count a word of 64 bits holds, or less. */
  ghost function Capped(n: nat): nat {
    if n > 18446744073709551615 then 18446744073709551615 else n
  }

  ghost predicate Finds(capacity: nat, h: History) {
    h.After? && h.op.OpGet? && HasState(CacheAfter(capacity, h.earlier), h.op.key, Ready)
  }

  ghost function Found(capacity: nat, h: History): nat {
    if h.Begin? then 0 else Found(capacity, h.earlier) + if Finds(capacity, h) then 1 else 0
  }

  ghost function Missed(capacity: nat, h: History): nat {
    if h.Begin? then 0
    else Missed(capacity, h.earlier) + if h.op.OpGet? && !Finds(capacity, h) then 1 else 0
  }

  ghost function TooLarge(capacity: nat, h: History): nat {
    if h.Begin? then 0
    else TooLarge(capacity, h.earlier) + if h.op.OpReady? && h.op.prepared.bytes > capacity then 1 else 0
  }

  ghost function MadeStale(h: History): nat {
    if h.Begin? then 0 else MadeStale(h.earlier) + if h.op.OpInvalidate? then |h.op.keys| else 0
  }

  /** The keys that a step removes. */
  ghost function Gone(capacity: nat, h: History): set<Key>
    requires h.After?
  {
    CacheAfter(capacity, h.earlier).entries.Keys - CacheAfter(capacity, h).entries.Keys
  }

  ghost function Vanished(capacity: nat, h: History): nat {
    if h.Begin? then 0 else Vanished(capacity, h.earlier) + |Gone(capacity, h)|
  }

  ghost predicate Counted(capacity: nat, h: History) {
    var c := CacheAfter(capacity, h);
    && c.hits == Capped(Found(capacity, h)) && c.misses == Capped(Missed(capacity, h))
    && c.rejections == Capped(TooLarge(capacity, h)) && c.invalidations == Capped(MadeStale(h))
    && c.evictions == Capped(Vanished(capacity, h))
  }

  lemma CappedAdds(n: nat, more: nat)
    ensures AddU64(Capped(n), more) == Capped(n + more)
  {
  }

  /** What a step from `c` to `d` adds to the counters; keys that vanish were evicted. */
  ghost predicate StepCounts(c: Cache, op: Op, d: Cache) {
    var found := op.OpGet? && HasState(c, op.key, Ready);
    && d.hits == AddU64(c.hits, if found then 1 else 0)
    && d.misses == AddU64(c.misses, if op.OpGet? && !found then 1 else 0)
    && d.rejections == AddU64(c.rejections, if op.OpReady? && op.prepared.bytes > c.capacity then 1 else 0)
    && d.invalidations == AddU64(c.invalidations, if op.OpInvalidate? then |op.keys| else 0)
    && d.evictions == AddU64(c.evictions, |c.entries.Keys - d.entries.Keys|)
  }

  ghost predicate InWords(c: Cache) {
    && c.hits <= U64_MAX && c.misses <= U64_MAX && c.rejections <= U64_MAX && c.invalidations <= U64_MAX
    && c.evictions <= U64_MAX
  }

  ghost predicate SameCounters(c: Cache, d: Cache) {
    c.hits == d.hits && c.misses == d.misses && c.rejections == d.rejections && c.invalidations == d.invalidations
  }

  lemma {:induction false} StaleCountsNothing(c: Cache, keys: seq<Key>)
    ensures var d := MarkStale(c, keys);
            SameCounters(c, d) && c.evictions == d.evictions && c.entries.Keys <= d.entries.Keys
  {
    if keys == [] {
    } else {
      StaleCountsNothing(c, keys[..|keys| - 1]);
    }
  }

  lemma {:induction false} EvictCountsKeys(c: Cache, bytes: nat)
    requires c.evictions <= U64_MAX
    ensures var d := EvictFor(c, bytes);
            && SameCounters(c, d) && d.entries.Keys <= c.entries.Keys
            && d.evictions == AddU64(c.evictions, |c.entries.Keys - d.entries.Keys|)
    decreases |c.entries|
  {
    if AddUsize(c.resident, bytes) <= c.capacity || SizedKeys(c.entries) == {} {
      assert c.entries.Keys - c.entries.Keys == {};
    } else {
      EvictTurnCounts(c, Oldest(c.entries), bytes);
    }
  }

  lemma EvictTurnCounts(c: Cache, victim: Key, bytes: nat)
    requires c.evictions <= U64_MAX && victim in c.entries
    ensures var e := Evict(c, victim);
            var d := EvictFor(e, bytes);
            && SameCounters(c, d) && d.entries.Keys <= c.entries.Keys
            && d.evictions == AddU64(c.evictions, |c.entries.Keys - d.entries.Keys|)
    decreases |c.entries|, 0
  {
    var e := Evict(c, victim);
    var d := EvictFor(e, bytes);
    assert e.entries.Keys == c.entries.Keys - {victim};
    assert |e.entries| == |e.entries.Keys| < |c.entries.Keys| == |c.entries|;
    EvictCountsKeys(e, bytes);
    OneMoreGone(c.entries.Keys, d.entries.Keys, victim);
    assert e.evictions == AddU64(c.evictions, 1);
  }

  lemma OneMoreGone(before: set<Key>, after: set<Key>, k: Key)
    requires k in before && after <= before - {k}
    ensures |before - after| == |before - {k} - after| + 1
  {
    assert before - after == (before - {k} - after) + {k};
  }

  /** Storing a model under `k` removes the keys that eviction takes. */
  lemma AdmittedGone(c: Cache, k: Key, m: Prepared)
    requires m.bytes <= c.capacity
    ensures var r := RemoveEntry(c, k);
            r.entries.Keys - EvictFor(r, m.bytes).entries.Keys == c.entries.Keys - SetReady(c, k, m).entries.Keys
  {
    var r := RemoveEntry(c, k);
    assert r.entries.Keys == c.entries.Keys - {k};
    assert SetReady(c, k, m).entries.Keys == EvictFor(r, m.bytes).entries.Keys + {k};
  }

  lemma ReadyCounts(c: Cache, k: Key, m: Prepared)
    requires InWords(c)
    ensures StepCounts(c, OpReady(k, m), SetReady(c, k, m))
  {
    if m.bytes > c.capacity {
      NothingGone(c.entries.Keys, SetReady(c, k, m).entries.Keys);
    } else {
      EvictCountsKeys(RemoveEntry(c, k), m.bytes);
      AdmittedGone(c, k, m);
    }
  }

  lemma NothingGone(before: set<Key>, after: set<Key>)
    requires before <= after
    ensures |before - after| == 0
  {
    assert before - after == {};
  }

  lemma MarkCounts(c: Cache, op: Op, k: Key, state: State)
    requires InWords(c) && (op == OpBuilding(k) || op == OpFailed(k))
    ensures StepCounts(c, op, Mark(c, k, state))
  {
    NothingGone(c.entries.Keys, Mark(c, k, state).entries.Keys);
  }

  lemma InvalidateCounts(c: Cache, model: nat, keys: seq<Key>)
    requires InWords(c)
    ensures StepCounts(c, OpInvalidate(model, keys), Invalidate(c, keys))
  {
    StaleCountsNothing(c, keys);
    NothingGone(c.entries.Keys, Invalidate(c, keys).entries.Keys);
  }

  lemma GetCounts(c: Cache, k: Key)
    requires WellKept(c) && InWords(c)
    ensures StepCounts(c, OpGet(k), GetReady(c, k))
  {
    NothingGone(c.entries.Keys, GetReady(c, k).entries.Keys);
  }

  lemma OneStepCounts(c: Cache, op: Op)
    requires WellKept(c) && InWords(c)
    ensures StepCounts(c, op, Apply(c, op))
  {
    match op
    case OpBuilding(k) => MarkCounts(c, op, k, Building);
    case OpFailed(k) => MarkCounts(c, op, k, Failed);
    case OpReady(k, m) => ReadyCounts(c, k, m);
    case OpInvalidate(model, keys) => InvalidateCounts(c, model, keys);
    case OpGet(k) => GetCounts(c, k);
  }

  /** In every interleaving the counters are those of the history: lookups that found a model and that
      did not, models larger than the capacity, keys made stale, and keys removed. */
  lemma {:induction false} EveryRunCounts(capacity: nat, h: History)
    requires Possible(capacity, h)
    ensures Counted(capacity, h)
  {
    if h.Begin? {
    } else {
      EveryRunCounts(capacity, h.earlier);
      EveryRunAccounts(capacity, h.earlier);
      OneStepCounts(CacheAfter(capacity, h.earlier), h.op);
      CountsGoOn(capacity, h);
    }
  }

  lemma CountsGoOn(capacity: nat, h: History)
    requires h.After? && Counted(capacity, h.earlier) && CacheAfter(capacity, h.earlier).capacity == capacity
    requires StepCounts(CacheAfter(capacity, h.earlier), h.op, CacheAfter(capacity, h))
    ensures Counted(capacity, h)
  {
    CappedAdds(Found(capacity, h.earlier), if Finds(capacity, h) then 1 else 0);
    CappedAdds(Missed(capacity, h.earlier), if h.op.OpGet? && !Finds(capacity, h) then 1 else 0);
    CappedAdds(TooLarge(capacity, h.earlier), if h.op.OpReady? && h.op.prepared.bytes > capacity then 1 else 0);
    CappedAdds(MadeStale(h.earlier), if h.op.OpInvalidate? then |h.op.keys| else 0);
    CappedAdds(Vanished(capacity, h.earlier), |Gone(capacity, h)|);
  }
}
