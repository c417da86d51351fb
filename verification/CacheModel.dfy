/** The byte-bounded factorization cache as a value with one function per locked step
    (crates/solver-core/src/cache.rs). Timestamps and error texts are not represented. */
module CacheModel {
  import opened Wrappers

  const USIZE_MAX: nat := 0xFFFF_FFFF_FFFF_FFFF
  const U64_MAX: nat := 0xFFFF_FFFF_FFFF_FFFF

  /** Model version and options hash; both print at fixed width, so the order of factorization ids
      is the lexicographic order of the two numbers. There is one backend. */
  datatype Key = Key(model: nat, options: nat)

  predicate IdBefore(a: Key, b: Key) {
    a.model < b.model || (a.model == b.model && a.options < b.options)
  }

  datatype State = Pending | Building | Ready | Failed | Stale

  /** A prepared model with its retained-byte estimate. */
  datatype Prepared = Prepared(id: nat, bytes: nat)

  datatype Entry = Entry(prepared: Option<Prepared>, state: State, bytes: nat, lastAccess: nat)

  type Entries = map<Key, Entry>

  datatype Cache = Cache(
    entries: Entries,
    capacity: nat,
    resident: nat,
    clock: nat,
    evictions: nat,
    invalidations: nat,
    rejections: nat,
    hits: nat,
    misses: nat)

  function EmptyCache(capacity: nat): Cache {
    Cache(map[], capacity, 0, 0, 0, 0, 0, 0, 0)
  }

  function AddUsize(a: nat, b: nat): nat {
    if a + b > USIZE_MAX then USIZE_MAX else a + b
  }

  function SubUsize(a: nat, b: nat): nat {
    if b > a then 0 else a - b
  }

  function AddU64(a: nat, b: nat): nat {
    if a + b > U64_MAX then U64_MAX else a + b
  }

  // ---------------------------------------------------------------------
  // Steps
  // ---------------------------------------------------------------------

  function RemoveEntry(c: Cache, k: Key): Cache {
    if k in c.entries
    then c.(entries := c.entries - {k}, resident := SubUsize(c.resident, c.entries[k].bytes))
    else c
  }

  /** Advances the access clock and stores a fresh entry under it. */
  function Insert(c: Cache, k: Key, prepared: Option<Prepared>, state: State, bytes: nat): Cache {
    var access := AddU64(c.clock, 1);
    c.(clock := access, entries := c.entries[k := Entry(prepared, state, bytes, access)])
  }

  function Mark(c: Cache, k: Key, state: State): Cache {
    Insert(RemoveEntry(c, k), k, None, state, 0)
  }

  /** `left` is evicted before `right`. */
  predicate Older(entries: Entries, left: Key, right: Key)
    requires left in entries && right in entries
  {
    || entries[left].lastAccess < entries[right].lastAccess
    || (entries[left].lastAccess == entries[right].lastAccess && IdBefore(left, right))
  }

  predicate Sized(entries: Entries, k: Key) {
    k in entries && entries[k].bytes > 0
  }

  ghost predicate IsOldest(entries: Entries, k: Key) {
    Sized(entries, k) && forall o :: Sized(entries, o) && o != k ==> Older(entries, k, o)
  }

  lemma {:induction false} OldestExists(entries: Entries, among: set<Key>) returns (k: Key)
    requires among != {} && forall o :: o in among ==> o in entries
    ensures k in among && forall o :: o in among && o != k ==> Older(entries, k, o)
    decreases |among|
  {
    k :| k in among;
    var rest := among - {k};
    assert among == rest + {k};
    if rest == {} {
    } else {
      var r := OldestExists(entries, rest);
      assert r == Key(r.model, r.options) && k == Key(k.model, k.options);
      if Older(entries, r, k) {
        k := r;
      } else {
        assert Older(entries, k, r);
      }
    }
  }

  ghost function SizedKeys(entries: Entries): set<Key> {
    set k | k in entries && entries[k].bytes > 0
  }

  lemma SomeOldest(entries: Entries)
    requires SizedKeys(entries) != {}
    ensures exists k :: IsOldest(entries, k)
  {
    var k := OldestExists(entries, SizedKeys(entries));
    assert IsOldest(entries, k);
  }

  ghost function Oldest(entries: Entries): (k: Key)
    requires SizedKeys(entries) != {}
    ensures IsOldest(entries, k)
  {
    SomeOldest(entries);
    var k :| IsOldest(entries, k);
    k
  }

  /** The eviction loop: drop the oldest sized entry until `bytes` more fit. */
  ghost function EvictFor(c: Cache, bytes: nat): Cache
    decreases |c.entries|
  {
    if AddUsize(c.resident, bytes) <= c.capacity || SizedKeys(c.entries) == {} then c
    else
      var victim := Oldest(c.entries);
      assert |(c.entries - {victim}).Keys| < |c.entries.Keys| by {
        assert (c.entries - {victim}).Keys == c.entries.Keys - {victim};
      }
      EvictFor(Evict(c, victim), bytes)
  }

  function Evict(c: Cache, victim: Key): Cache {
    var d := RemoveEntry(c, victim);
    d.(evictions := AddU64(c.evictions, 1))
  }

  ghost function SetReady(c: Cache, k: Key, m: Prepared): Cache {
    var d := RemoveEntry(c, k);
    if m.bytes > c.capacity
    then Insert(d.(rejections := AddU64(c.rejections, 1)), k, None, Failed, 0)
    else
      var e := EvictFor(d, m.bytes);
      Insert(e.(resident := AddUsize(e.resident, m.bytes)), k, Some(m), Ready, m.bytes)
  }

  function Lookup(c: Cache, k: Key): Option<Prepared> {
    if k in c.entries && c.entries[k].state == Ready then c.entries[k].prepared else None
  }

  function GetReady(c: Cache, k: Key): Cache {
    if Lookup(c, k).Some? then
      var access := AddU64(c.clock, 1);
      c.(clock := access, hits := AddU64(c.hits, 1),
         entries := c.entries[k := c.entries[k].(lastAccess := access)])
    else c.(misses := AddU64(c.misses, 1))
  }

  /** Marks the listed keys stale, one after the other. */
  function MarkStale(c: Cache, keys: seq<Key>): Cache {
    if keys == [] then c else Mark(MarkStale(c, keys[..|keys| - 1]), keys[|keys| - 1], Stale)
  }

  function Invalidate(c: Cache, keys: seq<Key>): Cache {
    var d := MarkStale(c, keys);
    d.(invalidations := AddU64(c.invalidations, |keys|))
  }

  /** `keys` lists the entries of one model version, in whatever order the hash map yields. */
  ghost predicate ListsModel(c: Cache, model: nat, keys: seq<Key>) {
    && (forall i, j :: 0 <= i < j < |keys| ==> keys[i] != keys[j])
    && (forall k :: k in keys <==> k in c.entries && k.model == model)
  }

  // ---------------------------------------------------------------------
  // Histories: any interleaving of locked steps by any number of callers
  // ---------------------------------------------------------------------

  datatype Op =
    | OpBuilding(key: Key)
    | OpReady(key: Key, prepared: Prepared)
    | OpFailed(key: Key)
    | OpInvalidate(model: nat, keys: seq<Key>)
    | OpGet(key: Key)

  datatype History = Begin | After(earlier: History, op: Op)

  ghost function Apply(c: Cache, op: Op): Cache {
    match op
    case OpBuilding(k) => Mark(c, k, Building)
    case OpReady(k, m) => SetReady(c, k, m)
    case OpFailed(k) => Mark(c, k, Failed)
    case OpInvalidate(_, keys) => Invalidate(c, keys)
    case OpGet(k) => GetReady(c, k)
  }

  ghost function CacheAfter(capacity: nat, h: History): Cache {
    match h
    case Begin => EmptyCache(capacity)
    case After(e, op) => Apply(CacheAfter(capacity, e), op)
  }

  /** Byte estimates fit `usize`, and each invalidation lists the entries present at that time. */
  ghost predicate Possible(capacity: nat, h: History) {
    match h
    case Begin => capacity <= USIZE_MAX
    case After(e, op) =>
      && Possible(capacity, e)
      && (op.OpReady? ==> op.prepared.bytes <= USIZE_MAX)
      && (op.OpInvalidate? ==> ListsModel(CacheAfter(capacity, e), op.model, op.keys))
  }

  // ---------------------------------------------------------------------
  // Byte totals
  // ---------------------------------------------------------------------

  ghost function TotalBytes(entries: Entries): nat {
    if entries == map[] then 0
    else
      var k :| k in entries;
      entries[k].bytes + TotalBytes(entries - {k})
  }

  lemma {:induction false} TotalWithout(entries: Entries, k: Key)
    requires k in entries
    ensures TotalBytes(entries) == entries[k].bytes + TotalBytes(entries - {k})
    decreases |entries|
  {
    var first :| first in entries && TotalBytes(entries) == entries[first].bytes + TotalBytes(entries - {first});
    if first == k {
    } else {
      var rest := entries - {first};
      assert rest.Keys == entries.Keys - {first};
      TotalWithout(rest, k);
      var other := entries - {k};
      assert other.Keys == entries.Keys - {k};
      TotalWithout(other, first);
      assert rest - {k} == other - {first};
    }
  }

  lemma TotalAfterInsert(entries: Entries, k: Key, e: Entry)
    requires k !in entries
    ensures TotalBytes(entries[k := e]) == TotalBytes(entries) + e.bytes
  {
    TotalWithout(entries[k := e], k);
    assert entries[k := e] - {k} == entries;
  }

  /** Only ready entries hold a model, and they are charged its estimate. */
  ghost predicate WellKept(c: Cache) {
    && c.capacity <= USIZE_MAX && c.clock <= U64_MAX
    && (forall k :: k in c.entries ==>
          && (c.entries[k].prepared.Some? <==> c.entries[k].state == Ready)
          && c.entries[k].bytes == (if c.entries[k].prepared.Some? then c.entries[k].prepared.value.bytes else 0)
          && c.entries[k].lastAccess <= c.clock)
  }

  ghost predicate Accounted(c: Cache) {
    c.resident == TotalBytes(c.entries) && c.resident <= c.capacity
  }

  lemma RemoveKeepsAccount(c: Cache, k: Key)
    requires WellKept(c)
    ensures WellKept(RemoveEntry(c, k))
    ensures Accounted(c) ==> Accounted(RemoveEntry(c, k))
  {
    if k in c.entries {
      TotalWithout(c.entries, k);
    }
  }

  lemma NothingSized(entries: Entries)
    requires SizedKeys(entries) == {}
    ensures TotalBytes(entries) == 0
    decreases |entries|
  {
    if entries == map[] {
    } else {
      var k :| k in entries;
      assert k !in SizedKeys(entries);
      TotalWithout(entries, k);
      assert (entries - {k}).Keys == entries.Keys - {k};
      forall o | o in entries - {k} ensures (entries - {k})[o].bytes == 0 {
        assert o !in SizedKeys(entries);
      }
      assert SizedKeys(entries - {k}) == {};
      NothingSized(entries - {k});
    }
  }

  /** For a capacity below the word maximum the eviction loop always finds a victim while the new
      entry does not fit, so it never leaves through its `break`. */
  lemma VictimExists(c: Cache, bytes: nat)
    requires Accounted(c) && c.capacity < USIZE_MAX && bytes <= c.capacity
    requires AddUsize(c.resident, bytes) > c.capacity
    ensures SizedKeys(c.entries) != {}
  {
    if SizedKeys(c.entries) == {} {
      NothingSized(c.entries);
      assert false;
    }
  }

  lemma {:induction false} EvictKeepsAccount(c: Cache, bytes: nat)
    requires WellKept(c)
    ensures var d := EvictFor(c, bytes);
            && WellKept(d) && d.capacity == c.capacity && d.clock == c.clock
            && d.entries.Keys <= c.entries.Keys
            && (forall k :: k in d.entries ==> d.entries[k] == c.entries[k])
            && (Accounted(c) && c.capacity < USIZE_MAX && bytes <= c.capacity ==>
                  Accounted(d) && d.resident + bytes <= d.capacity)
    decreases |c.entries|
  {
    if AddUsize(c.resident, bytes) <= c.capacity {
    } else if SizedKeys(c.entries) == {} {
      if Accounted(c) && c.capacity < USIZE_MAX && bytes <= c.capacity {
        VictimExists(c, bytes);
      }
    } else {
      var victim := Oldest(c.entries);
      RemoveKeepsAccount(c, victim);
      assert (c.entries - {victim}).Keys == c.entries.Keys - {victim};
      EvictKeepsAccount(Evict(c, victim), bytes);
    }
  }

  lemma InsertKeepsAccount(c: Cache, k: Key, prepared: Option<Prepared>, state: State, bytes: nat)
    requires WellKept(c) && k !in c.entries
    requires prepared.Some? <==> state == Ready
    requires bytes == if prepared.Some? then prepared.value.bytes else 0
    ensures WellKept(Insert(c, k, prepared, state, bytes))
    ensures TotalBytes(Insert(c, k, prepared, state, bytes).entries) == TotalBytes(c.entries) + bytes
  {
    TotalAfterInsert(c.entries, k, Entry(prepared, state, bytes, AddU64(c.clock, 1)));
  }

  lemma MarkKeepsAccount(c: Cache, k: Key, state: State)
    requires WellKept(c) && state != Ready
    ensures WellKept(Mark(c, k, state)) && Mark(c, k, state).capacity == c.capacity
    ensures Accounted(c) ==> Accounted(Mark(c, k, state))
    ensures Mark(c, k, state).entries.Keys == c.entries.Keys + {k}
    ensures forall o :: o in c.entries && o != k ==> Mark(c, k, state).entries[o] == c.entries[o]
  {
    RemoveKeepsAccount(c, k);
    InsertKeepsAccount(RemoveEntry(c, k), k, None, state, 0);
  }

  lemma SetReadyKeepsAccount(c: Cache, k: Key, m: Prepared)
    requires WellKept(c)
    ensures WellKept(SetReady(c, k, m)) && SetReady(c, k, m).capacity == c.capacity
    ensures Accounted(c) && c.capacity < USIZE_MAX ==> Accounted(SetReady(c, k, m))
  {
    var d := RemoveEntry(c, k);
    RemoveKeepsAccount(c, k);
    if m.bytes > c.capacity {
      InsertKeepsAccount(d.(rejections := AddU64(c.rejections, 1)), k, None, Failed, 0);
    } else {
      EvictKeepsAccount(d, m.bytes);
      var e := EvictFor(d, m.bytes);
      InsertKeepsAccount(e.(resident := AddUsize(e.resident, m.bytes)), k, Some(m), Ready, m.bytes);
    }
  }

  lemma GetKeepsAccount(c: Cache, k: Key)
    requires WellKept(c)
    ensures WellKept(GetReady(c, k)) && GetReady(c, k).capacity == c.capacity
    ensures Accounted(c) ==> Accounted(GetReady(c, k))
  {
    if Lookup(c, k).Some? {
      var touched := c.entries[k].(lastAccess := AddU64(c.clock, 1));
      TotalWithout(c.entries, k);
      TotalAfterInsert(c.entries - {k}, k, touched);
      assert (c.entries - {k})[k := touched] == c.entries[k := touched];
    }
  }

  lemma {:induction false} StaleKeepsAccount(c: Cache, keys: seq<Key>)
    requires WellKept(c)
    ensures WellKept(MarkStale(c, keys)) && MarkStale(c, keys).capacity == c.capacity
    ensures Accounted(c) ==> Accounted(MarkStale(c, keys))
  {
    if keys == [] {
    } else {
      StaleKeepsAccount(c, keys[..|keys| - 1]);
      MarkKeepsAccount(MarkStale(c, keys[..|keys| - 1]), keys[|keys| - 1], Stale);
    }
  }

  /** Every interleaving keeps the byte account, for every capacity below the word maximum. */
  lemma {:induction false} EveryRunAccounts(capacity: nat, h: History)
    requires Possible(capacity, h)
    ensures WellKept(CacheAfter(capacity, h)) && CacheAfter(capacity, h).capacity == capacity
    ensures capacity < USIZE_MAX ==> Accounted(CacheAfter(capacity, h))
  {
    if h.Begin? {
    } else {
      EveryRunAccounts(capacity, h.earlier);
      var c := CacheAfter(capacity, h.earlier);
      match h.op
      case OpBuilding(k) => MarkKeepsAccount(c, k, Building);
      case OpReady(k, m) => SetReadyKeepsAccount(c, k, m);
      case OpFailed(k) => MarkKeepsAccount(c, k, Failed);
      case OpInvalidate(_, keys) => StaleKeepsAccount(c, keys);
      case OpGet(k) => GetKeepsAccount(c, k);
    }
  }

  /** At the word maximum the guard saturates, so the account can be overrun. */
  lemma MaximalCapacityOverruns()
    ensures exists h :: Possible(USIZE_MAX, h) && !Accounted(CacheAfter(USIZE_MAX, h))
  {
    var first, second := Key(0, 0), Key(1, 0);
    var big, small := Prepared(0, USIZE_MAX), Prepared(1, 1);
    var e := EmptyCache(USIZE_MAX);
    var h1 := After(Begin, OpReady(first, big));
    var h2 := After(h1, OpReady(second, small));
    var c1 := CacheAfter(USIZE_MAX, h1);
    assert RemoveEntry(e, first) == e;
    assert EvictFor(e, big.bytes) == e;
    assert c1.entries == map[first := Entry(Some(big), Ready, USIZE_MAX, 1)] && c1.resident == USIZE_MAX;
    assert RemoveEntry(c1, second) == c1;
    assert EvictFor(c1, small.bytes) == c1;
    var c2 := CacheAfter(USIZE_MAX, h2);
    TotalAfterInsert(map[], first, c1.entries[first]);
    TotalAfterInsert(c1.entries, second, Entry(Some(small), Ready, 1, 2));
    assert TotalBytes(c2.entries) == USIZE_MAX + 1;
    assert Possible(USIZE_MAX, h2) && !Accounted(c2);
  }

  /** Exactly the capacities below the word maximum keep the account in every run. */
  lemma AccountedIffBelowMaximum(capacity: nat)
    requires capacity <= USIZE_MAX
    ensures capacity < USIZE_MAX <==>
            forall h :: Possible(capacity, h) ==> Accounted(CacheAfter(capacity, h))
  {
    if capacity < USIZE_MAX {
      forall h | Possible(capacity, h) ensures Accounted(CacheAfter(capacity, h)) {
        EveryRunAccounts(capacity, h);
      }
    } else {
      MaximalCapacityOverruns();
    }
  }
}
