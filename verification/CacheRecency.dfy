/** The access-clock cache refines a recency list, and evicts exactly the oldest entries it must
    (crates/solver-core/src/cache.rs). */
module CacheRecency {
  import opened Wrappers
  import opened CacheModel

  // ---------------------------------------------------------------------
  // What eviction removes
  // ---------------------------------------------------------------------

  /** `gone` holds sized entries, each older than every sized entry that stays. */
  ghost predicate OldestFirst(entries: Entries, gone: set<Key>) {
    && (forall g :: g in gone ==> Sized(entries, g))
    && (forall g, r :: g in gone && Sized(entries, r) && r !in gone ==> Older(entries, g, r))
  }

  /** `last` is the newest of `gone`, and without dropping it `bytes` more would not fit. */
  ghost predicate NewestNeeded(c: Cache, bytes: nat, gone: set<Key>, last: Key) {
    && last in gone
    && (forall g :: g in gone ==> g in c.entries)
    && (forall g :: g in gone && g != last ==> Older(c.entries, g, last))
    && TotalBytes(c.entries - (gone - {last})) + bytes > c.capacity
  }

  /** `gone` is the shortest oldest-first cut of the sized entries that makes room for `bytes`. */
  ghost predicate IsLeastCut(c: Cache, bytes: nat, gone: set<Key>) {
    && OldestFirst(c.entries, gone)
    && TotalBytes(c.entries - gone) + bytes <= c.capacity
    && (gone != {} ==> exists last :: NewestNeeded(c, bytes, gone, last))
  }

  lemma NewestNeededStep(c: Cache, bytes: nat, victim: Key, later: set<Key>, last: Key)
    requires IsOldest(c.entries, victim)
    requires OldestFirst(Evict(c, victim).entries, later) && NewestNeeded(Evict(c, victim), bytes, later, last)
    ensures NewestNeeded(c, bytes, later + {victim}, last)
  {
    var next := Evict(c, victim);
    assert c.entries - (later + {victim} - {last}) == next.entries - (later - {last});
    assert forall k :: k in next.entries ==> k in c.entries && next.entries[k] == c.entries[k];
    assert Sized(next.entries, last);
  }

  lemma CutStep(c: Cache, bytes: nat, victim: Key, later: set<Key>)
    requires IsOldest(c.entries, victim) && TotalBytes(c.entries) + bytes > c.capacity
    requires IsLeastCut(Evict(c, victim), bytes, later)
    ensures c.entries - (later + {victim}) == Evict(c, victim).entries - later
    ensures IsLeastCut(c, bytes, later + {victim})
  {
    var next := Evict(c, victim);
    assert c.entries - (later + {victim}) == next.entries - later;
    if later == {} {
      assert c.entries - ({} + {victim} - {victim}) == c.entries;
      assert NewestNeeded(c, bytes, {} + {victim}, victim);
    } else {
      var last :| NewestNeeded(next, bytes, later, last);
      NewestNeededStep(c, bytes, victim, later, last);
    }
  }

  lemma {:induction false} EvictsLeastCut(c: Cache, bytes: nat) returns (gone: set<Key>)
    requires WellKept(c) && Accounted(c) && c.capacity < USIZE_MAX && bytes <= c.capacity
    ensures EvictFor(c, bytes).entries == c.entries - gone && IsLeastCut(c, bytes, gone)
    decreases |c.entries|
  {
    if AddUsize(c.resident, bytes) <= c.capacity {
      gone := {};
      assert c.entries - gone == c.entries;
    } else {
      VictimExists(c, bytes);
      var victim := Oldest(c.entries);
      RemoveKeepsAccount(c, victim);
      assert (c.entries - {victim}).Keys == c.entries.Keys - {victim};
      var later := EvictsLeastCut(Evict(c, victim), bytes);
      CutStep(c, bytes, victim, later);
      gone := later + {victim};
    }
  }

  lemma {:induction false} TotalMonotone(entries: Entries, fewer: set<Key>, more: set<Key>)
    requires fewer <= more
    ensures TotalBytes(entries - more) <= TotalBytes(entries - fewer)
    decreases |more|
  {
    if fewer == more {
    } else {
      var k :| k in more && k !in fewer;
      TotalMonotone(entries, fewer, more - {k});
      if k in entries {
        TotalWithout(entries - (more - {k}), k);
        assert entries - (more - {k}) - {k} == entries - more;
      } else {
        assert entries - (more - {k}) == entries - more;
      }
    }
  }

  /** The cut is unique, so the entries evicted are determined by the two conditions alone. */
  lemma LeastCutIsUnique(c: Cache, bytes: nat, a: set<Key>, b: set<Key>)
    requires IsLeastCut(c, bytes, a) && IsLeastCut(c, bytes, b)
    ensures a == b
  {
    LeastCutWithin(c, bytes, a, b);
    LeastCutWithin(c, bytes, b, a);
  }

  lemma LeastCutWithin(c: Cache, bytes: nat, a: set<Key>, b: set<Key>)
    requires IsLeastCut(c, bytes, a) && IsLeastCut(c, bytes, b)
    ensures a <= b
  {
    if a != {} {
      var last :| NewestNeeded(c, bytes, a, last);
      if last !in b {
        assert forall g :: g in b ==> Older(c.entries, g, last);
        assert forall g :: g in b ==> g in a;
        TotalMonotone(c.entries, b, a - {last});
      }
    }
  }

  // ---------------------------------------------------------------------
  // The abstract recency list
  // ---------------------------------------------------------------------

  datatype Slot = Held(model: Prepared) | Marked(state: State)

  /** What is stored per key, and the keys of sized models from least to most recently used. */
  datatype Shelf = Shelf(slots: map<Key, Slot>, recency: seq<Key>)

  function Without(s: seq<Key>, k: Key): seq<Key> {
    if s == [] then [] else if s[0] == k then Without(s[1..], k) else [s[0]] + Without(s[1..], k)
  }

  function SlotBytes(slots: map<Key, Slot>, k: Key): nat {
    if k in slots && slots[k].Held? then slots[k].model.bytes else 0
  }

  function Weight(slots: map<Key, Slot>, s: seq<Key>): nat {
    if s == [] then 0 else SlotBytes(slots, s[0]) + Weight(slots, s[1..])
  }

  function Forget(s: Shelf, k: Key): Shelf {
    Shelf(s.slots - {k}, Without(s.recency, k))
  }

  function ShelfMark(s: Shelf, k: Key, state: State): Shelf {
    var f := Forget(s, k);
    f.(slots := f.slots[k := Marked(state)])
  }

  /** Drops from the front of the list until `bytes` more fit. */
  function TrimFor(s: Shelf, bytes: nat, capacity: nat): Shelf
    decreases |s.recency|
  {
    if Weight(s.slots, s.recency) + bytes <= capacity || s.recency == [] then s
    else TrimFor(Shelf(s.slots - {s.recency[0]}, s.recency[1..]), bytes, capacity)
  }

  function Used(recency: seq<Key>, k: Key, m: Prepared): seq<Key> {
    if m.bytes > 0 then recency + [k] else recency
  }

  function ShelfReady(s: Shelf, k: Key, m: Prepared, capacity: nat): Shelf {
    if m.bytes > capacity then ShelfMark(s, k, Failed)
    else
      var t := TrimFor(Forget(s, k), m.bytes, capacity);
      Shelf(t.slots[k := Held(m)], Used(t.recency, k, m))
  }

  function ShelfGet(s: Shelf, k: Key): Shelf {
    if k in s.slots && s.slots[k].Held?
    then s.(recency := Used(Without(s.recency, k), k, s.slots[k].model))
    else s
  }

  function ShelfStale(s: Shelf, keys: seq<Key>): Shelf {
    if keys == [] then s else ShelfMark(ShelfStale(s, keys[..|keys| - 1]), keys[|keys| - 1], Stale)
  }

  function ShelfApply(s: Shelf, op: Op, capacity: nat): Shelf {
    match op
    case OpBuilding(k) => ShelfMark(s, k, Building)
    case OpReady(k, m) => ShelfReady(s, k, m, capacity)
    case OpFailed(k) => ShelfMark(s, k, Failed)
    case OpInvalidate(_, keys) => ShelfStale(s, keys)
    case OpGet(k) => ShelfGet(s, k)
  }

  function ShelfAfter(capacity: nat, h: History): Shelf {
    match h
    case Begin => Shelf(map[], [])
    case After(e, op) => ShelfApply(ShelfAfter(capacity, e), op, capacity)
  }

  // ---------------------------------------------------------------------
  // Refinement
  // ---------------------------------------------------------------------

  /** Access times strictly increase along `s`. */
  ghost predicate Rising(entries: Entries, s: seq<Key>) {
    s != [] ==>
      && s[0] in entries
      && (forall x :: x in s[1..] ==> x in entries && entries[s[0]].lastAccess < entries[x].lastAccess)
      && Rising(entries, s[1..])
  }

  ghost predicate SameSlots(entries: Entries, slots: map<Key, Slot>) {
    && entries.Keys == slots.Keys
    && forall k :: k in entries ==>
         slots[k] == (if entries[k].prepared.Some? then Held(entries[k].prepared.value) else Marked(entries[k].state))
  }

  ghost predicate Refines(c: Cache, s: Shelf) {
    && WellKept(c) && c.capacity < USIZE_MAX && c.resident <= c.capacity
    && SameSlots(c.entries, s.slots)
    && Lists(c.entries, s, c.resident)
  }

  /** The list holds exactly the sized entries, in access order, and weighs `resident`. */
  ghost predicate Lists(entries: Entries, s: Shelf, resident: nat) {
    && Rising(entries, s.recency)
    && (forall k :: k in s.recency <==> Sized(entries, k))
    && resident == Weight(s.slots, s.recency)
  }

  lemma {:induction false} WithoutMembers(s: seq<Key>, k: Key)
    ensures forall x :: x in Without(s, k) <==> x in s && x != k
  {
    if s == [] {
    } else {
      WithoutMembers(s[1..], k);
      assert s == [s[0]] + s[1..];
    }
  }

  lemma {:induction false} WithoutRising(entries: Entries, s: seq<Key>, k: Key)
    requires Rising(entries, s)
    ensures Rising(entries, Without(s, k))
  {
    if s == [] {
    } else {
      WithoutRising(entries, s[1..], k);
      WithoutMembers(s[1..], k);
      if s[0] != k {
        assert Without(s, k)[1..] == Without(s[1..], k);
      }
    }
  }

  /** Entries off the list may change. */
  lemma {:induction false} RisingFrame(e: Entries, f: Entries, s: seq<Key>)
    requires Rising(e, s)
    requires forall x :: x in s ==> x in f && (x in e ==> f[x].lastAccess == e[x].lastAccess)
    ensures Rising(f, s)
  {
    if s == [] {
    } else {
      assert s[0] in s && forall x :: x in s[1..] ==> x in s;
      RisingFrame(e, f, s[1..]);
    }
  }

  lemma {:induction false} RisingAppend(entries: Entries, s: seq<Key>, k: Key)
    requires Rising(entries, s) && k in entries
    requires forall x :: x in s ==> x in entries && entries[x].lastAccess < entries[k].lastAccess
    ensures Rising(entries, s + [k])
  {
    if s == [] {
    } else {
      RisingAppend(entries, s[1..], k);
      assert (s + [k])[1..] == s[1..] + [k];
    }
  }

  lemma {:induction false} WeightFrame(p: map<Key, Slot>, q: map<Key, Slot>, s: seq<Key>)
    requires forall x :: x in s ==> SlotBytes(p, x) == SlotBytes(q, x)
    ensures Weight(p, s) == Weight(q, s)
  {
    if s == [] {
    } else {
      assert s[0] in s && forall x :: x in s[1..] ==> x in s;
      WeightFrame(p, q, s[1..]);
    }
  }

  lemma {:induction false} WeightAppend(slots: map<Key, Slot>, s: seq<Key>, k: Key)
    ensures Weight(slots, s + [k]) == Weight(slots, s) + SlotBytes(slots, k)
  {
    if s == [] {
      assert [] + [k] == [k];
      assert Weight(slots, [k][1..]) == 0;
    } else {
      WeightAppend(slots, s[1..], k);
      assert (s + [k])[1..] == s[1..] + [k];
    }
  }

  lemma RisingNotTwice(entries: Entries, s: seq<Key>)
    requires Rising(entries, s) && s != []
    ensures s[0] !in s[1..] && Without(s[1..], s[0]) == s[1..]
  {
    WithoutAbsent(s[1..], s[0]);
  }

  lemma {:induction false} WithoutAbsent(s: seq<Key>, k: Key)
    requires k !in s
    ensures Without(s, k) == s
  {
    if s == [] {
    } else {
      assert s[0] in s && forall x :: x in s[1..] ==> x in s;
      WithoutAbsent(s[1..], k);
      assert s == [s[0]] + s[1..];
    }
  }

  lemma {:induction false} WithoutWeight(entries: Entries, slots: map<Key, Slot>, s: seq<Key>, k: Key)
    requires Rising(entries, s) && k in s
    ensures Weight(slots, s) == SlotBytes(slots, k) + Weight(slots, Without(s, k))
  {
    if s[0] == k {
      RisingNotTwice(entries, s);
    } else {
      assert k in s[1..];
      WithoutWeight(entries, slots, s[1..], k);
      assert Without(s, k)[1..] == Without(s[1..], k);
    }
  }

  lemma ForgetLists(entries: Entries, s: Shelf, resident: nat, k: Key)
    requires Lists(entries, s, resident)
    ensures Lists(entries - {k}, Forget(s, k), Weight(Forget(s, k).slots, Forget(s, k).recency))
  {
    WithoutMembers(s.recency, k);
    WithoutRising(entries, s.recency, k);
    RisingFrame(entries, entries - {k}, Without(s.recency, k));
  }

  lemma ForgetWeight(entries: Entries, s: Shelf, resident: nat, k: Key)
    requires Lists(entries, s, resident) && SameSlots(entries, s.slots)
    ensures Weight(Forget(s, k).slots, Forget(s, k).recency)
            + (if k in s.recency then SlotBytes(s.slots, k) else 0) == resident
  {
    WithoutMembers(s.recency, k);
    WeightFrame(s.slots, Forget(s, k).slots, Forget(s, k).recency);
    if k in s.recency {
      WithoutWeight(entries, s.slots, s.recency, k);
    } else {
      WithoutAbsent(s.recency, k);
    }
  }

  lemma ForgetRefines(c: Cache, s: Shelf, k: Key)
    requires Refines(c, s)
    ensures Refines(RemoveEntry(c, k), Forget(s, k))
  {
    ForgetLists(c.entries, s, c.resident, k);
    ForgetWeight(c.entries, s, c.resident, k);
    RemoveKeepsAccount(c, k);
    if k in c.entries {
      assert k in s.recency <==> c.entries[k].bytes > 0;
    } else {
      assert c.entries - {k} == c.entries;
    }
  }

  function SlotFor(prepared: Option<Prepared>, state: State): Slot {
    if prepared.Some? then Held(prepared.value) else Marked(state)
  }

  lemma InsertSlots(entries: Entries, slots: map<Key, Slot>, k: Key, e: Entry)
    requires SameSlots(entries, slots)
    ensures SameSlots(entries[k := e], slots[k := SlotFor(e.prepared, e.state)])
  {
  }

  lemma InsertList(entries: Entries, s: Shelf, resident: nat, k: Key, e: Entry)
    requires k !in entries && Lists(entries, s, resident)
    requires forall x :: x in entries ==> entries[x].lastAccess < e.lastAccess
    requires e.bytes == if e.prepared.Some? then e.prepared.value.bytes else 0
    ensures Lists(entries[k := e],
                  Shelf(s.slots[k := SlotFor(e.prepared, e.state)], if e.bytes > 0 then s.recency + [k] else s.recency),
                  resident + e.bytes)
  {
    var slots := s.slots[k := SlotFor(e.prepared, e.state)];
    assert forall x :: x in s.recency ==> x in entries && x != k;
    RisingFrame(entries, entries[k := e], s.recency);
    WeightFrame(s.slots, slots, s.recency);
    WeightAppend(slots, s.recency, k);
    RisingAppend(entries[k := e], s.recency, k);
  }

  /** Storing under a fresh key at a later time appends to the list. */
  lemma InsertRefines(c: Cache, s: Shelf, k: Key, prepared: Option<Prepared>, state: State, bytes: nat)
    requires Refines(c, s) && k !in c.entries && c.clock < U64_MAX
    requires prepared.Some? <==> state == Ready
    requires bytes == if prepared.Some? then prepared.value.bytes else 0
    requires c.resident + bytes <= c.capacity
    ensures Refines(Insert(c.(resident := c.resident + bytes), k, prepared, state, bytes),
                    Shelf(s.slots[k := SlotFor(prepared, state)], if bytes > 0 then s.recency + [k] else s.recency))
  {
    var e := Entry(prepared, state, bytes, c.clock + 1);
    InsertSlots(c.entries, s.slots, k, e);
    InsertList(c.entries, s, c.resident, k, e);
    InsertKeepsAccount(c.(resident := c.resident + bytes), k, prepared, state, bytes);
  }

  lemma MarkRefines(c: Cache, s: Shelf, k: Key, state: State)
    requires Refines(c, s) && c.clock < U64_MAX && state != Ready
    ensures Refines(Mark(c, k, state), ShelfMark(s, k, state))
  {
    ForgetRefines(c, s, k);
    var d := RemoveEntry(c, k);
    assert d.(resident := d.resident + 0) == d;
    InsertRefines(d, Forget(s, k), k, None, state, 0);
  }

  /** The entry the clock order evicts is the front of the list. */
  lemma FrontIsOldest(c: Cache, s: Shelf)
    requires Refines(c, s) && s.recency != []
    ensures SizedKeys(c.entries) != {} && Oldest(c.entries) == s.recency[0]
  {
    var front := s.recency[0];
    assert front in s.recency && front in SizedKeys(c.entries);
    var oldest := Oldest(c.entries);
    assert oldest in s.recency && s.recency == [front] + s.recency[1..];
  }

  lemma {:induction false} EvictRefines(c: Cache, s: Shelf, bytes: nat)
    requires Refines(c, s) && bytes <= c.capacity
    ensures Refines(EvictFor(c, bytes), TrimFor(s, bytes, c.capacity))
    ensures EvictFor(c, bytes).resident + bytes <= c.capacity
    decreases |s.recency|
  {
    if AddUsize(c.resident, bytes) <= c.capacity {
    } else {
      assert s.recency != [];
      FrontIsOldest(c, s);
      var front := s.recency[0];
      RisingNotTwice(c.entries, s.recency);
      ForgetRefines(c, s, front);
      assert Forget(s, front) == Shelf(s.slots - {front}, s.recency[1..]);
      EvictRefines(Evict(c, front), Shelf(s.slots - {front}, s.recency[1..]), bytes);
    }
  }

  lemma AdmittedRefines(c: Cache, s: Shelf, k: Key, m: Prepared)
    requires Refines(c, s) && k !in c.entries && c.clock < U64_MAX && m.bytes <= c.capacity
    ensures var e := EvictFor(c, m.bytes);
            var t := TrimFor(s, m.bytes, c.capacity);
            Refines(Insert(e.(resident := AddUsize(e.resident, m.bytes)), k, Some(m), Ready, m.bytes),
                    Shelf(t.slots[k := Held(m)], Used(t.recency, k, m)))
  {
    EvictRefines(c, s, m.bytes);
    EvictKeepsAccount(c, m.bytes);
    InsertRefines(EvictFor(c, m.bytes), TrimFor(s, m.bytes, c.capacity), k, Some(m), Ready, m.bytes);
  }

  lemma ReadyRefines(c: Cache, s: Shelf, k: Key, m: Prepared)
    requires Refines(c, s) && c.clock < U64_MAX
    ensures Refines(SetReady(c, k, m), ShelfReady(s, k, m, c.capacity))
  {
    ForgetRefines(c, s, k);
    var d, f := RemoveEntry(c, k), Forget(s, k);
    if m.bytes > c.capacity {
      var r := d.(rejections := AddU64(c.rejections, 1));
      assert r.(resident := r.resident + 0) == r;
      InsertRefines(r, f, k, None, Failed, 0);
    } else {
      AdmittedRefines(d, f, k, m);
    }
  }

  /** A hit moves a sized entry to the end of the list. */
  lemma RefreshLists(entries: Entries, s: Shelf, resident: nat, k: Key, access: nat)
    requires k in entries && SameSlots(entries, s.slots) && Lists(entries, s, resident)
    requires entries[k].prepared.Some? && entries[k].bytes == entries[k].prepared.value.bytes
    requires forall x :: x in entries ==> entries[x].lastAccess < access
    ensures Lists(entries[k := entries[k].(lastAccess := access)],
                  s.(recency := Used(Without(s.recency, k), k, entries[k].prepared.value)), resident)
  {
    var later := entries[k := entries[k].(lastAccess := access)];
    var others := Without(s.recency, k);
    WithoutMembers(s.recency, k);
    WithoutRising(entries, s.recency, k);
    RisingFrame(entries, later, others);
    if entries[k].bytes > 0 {
      WithoutWeight(entries, s.slots, s.recency, k);
      WeightAppend(s.slots, others, k);
      RisingAppend(later, others, k);
    } else {
      WithoutAbsent(s.recency, k);
    }
  }

  lemma GetRefines(c: Cache, s: Shelf, k: Key)
    requires Refines(c, s) && c.clock < U64_MAX
    ensures Refines(GetReady(c, k), ShelfGet(s, k))
  {
    if Lookup(c, k).Some? {
      RefreshLists(c.entries, s, c.resident, k, c.clock + 1);
    }
  }

  lemma {:induction false} ClockOnlyRises(c: Cache, keys: seq<Key>)
    requires c.clock <= U64_MAX
    ensures c.clock <= MarkStale(c, keys).clock <= U64_MAX
  {
    if keys == [] {
    } else {
      ClockOnlyRises(c, keys[..|keys| - 1]);
    }
  }

  lemma {:induction false} StaleRefines(c: Cache, s: Shelf, keys: seq<Key>)
    requires Refines(c, s) && MarkStale(c, keys).clock < U64_MAX
    ensures Refines(MarkStale(c, keys), ShelfStale(s, keys))
  {
    if keys == [] {
    } else {
      ClockOnlyRises(c, keys[..|keys| - 1]);
      StaleRefines(c, s, keys[..|keys| - 1]);
      MarkRefines(MarkStale(c, keys[..|keys| - 1]), ShelfStale(s, keys[..|keys| - 1]), keys[|keys| - 1], Stale);
    }
  }

  lemma ClockRises(c: Cache, op: Op)
    requires WellKept(c)
    ensures c.clock <= Apply(c, op).clock <= U64_MAX
    ensures c.clock == U64_MAX ==> Apply(c, op).clock == U64_MAX
  {
    match op
    case OpReady(k, m) =>
      RemoveKeepsAccount(c, k);
      EvictKeepsAccount(RemoveEntry(c, k), m.bytes);
    case OpInvalidate(_, keys) => ClockOnlyRises(c, keys);
    case _ =>
  }

  /** In every interleaving, while the access clock has not saturated, the cache is its recency
      list: the same models under the same keys, the same states, the same eviction order. */
  lemma {:induction false} EveryRunRefines(capacity: nat, h: History)
    requires Possible(capacity, h) && capacity < USIZE_MAX && CacheAfter(capacity, h).clock < U64_MAX
    ensures Refines(CacheAfter(capacity, h), ShelfAfter(capacity, h))
  {
    if h.Begin? {
    } else {
      EveryRunAccounts(capacity, h.earlier);
      var c, s := CacheAfter(capacity, h.earlier), ShelfAfter(capacity, h.earlier);
      ClockRises(c, h.op);
      EveryRunRefines(capacity, h.earlier);
      match h.op
      case OpBuilding(k) => MarkRefines(c, s, k, Building);
      case OpReady(k, m) => ReadyRefines(c, s, k, m);
      case OpFailed(k) => MarkRefines(c, s, k, Failed);
      case OpInvalidate(_, keys) => StaleRefines(c, s, keys);
      case OpGet(k) => GetRefines(c, s, k);
    }
  }

  // ---------------------------------------------------------------------
  // What a lookup returns
  // ---------------------------------------------------------------------

  predicate Touches(op: Op, k: Key) {
    match op
    case OpBuilding(key) => key == k
    case OpReady(key, _) => key == k
    case OpFailed(key) => key == k
    case OpInvalidate(model, _) => k.model == model
    case OpGet(_) => false
  }

  /** The last step that set `k` stored `m` as ready and within capacity, and no step since has
      evicted it. */
  ghost predicate StoredLast(capacity: nat, h: History, k: Key, m: Prepared) {
    h.After?
    && if Touches(h.op, k) then h.op == OpReady(k, m) && m.bytes <= capacity
       else StoredLast(capacity, h.earlier, k, m) && k in CacheAfter(capacity, h).entries
  }

  lemma {:induction false} StaleMeansMarked(c: Cache, keys: seq<Key>, k: Key)
    requires WellKept(c)
    ensures k in keys ==> k in MarkStale(c, keys).entries && MarkStale(c, keys).entries[k].state == Stale
    ensures k !in keys ==> (k in MarkStale(c, keys).entries <==> k in c.entries)
    ensures k !in keys && k in c.entries ==> MarkStale(c, keys).entries[k] == c.entries[k]
  {
    if keys == [] {
    } else {
      var front := keys[..|keys| - 1];
      assert keys == front + [keys[|keys| - 1]];
      StaleMeansMarked(c, front, k);
      StaleKeepsAccount(c, front);
      MarkKeepsAccount(MarkStale(c, front), keys[|keys| - 1], Stale);
    }
  }

  /** A step that does not set `k` either evicts it or leaves what a lookup finds. */
  lemma UntouchedKeeps(c: Cache, op: Op, k: Key)
    requires WellKept(c) && !Touches(op, k)
    requires op.OpInvalidate? ==> ListsModel(c, op.model, op.keys)
    ensures k in Apply(c, op).entries ==> k in c.entries && Lookup(Apply(c, op), k) == Lookup(c, k)
  {
    match op
    case OpBuilding(o) => MarkKeepsAccount(c, o, Building);
    case OpFailed(o) => MarkKeepsAccount(c, o, Failed);
    case OpReady(o, m) =>
      RemoveKeepsAccount(c, o);
      EvictKeepsAccount(RemoveEntry(c, o), m.bytes);
    case OpInvalidate(_, keys) => StaleMeansMarked(c, keys, k);
    case OpGet(_) =>
  }

  /** In every interleaving a lookup of `k` returns `m` exactly when `m` was stored last. */
  lemma {:induction false} LookupIsStoredLast(capacity: nat, h: History, k: Key, m: Prepared)
    requires Possible(capacity, h)
    ensures Lookup(CacheAfter(capacity, h), k) == Some(m) <==> StoredLast(capacity, h, k, m)
  {
    if h.Begin? {
    } else {
      var c := CacheAfter(capacity, h.earlier);
      EveryRunAccounts(capacity, h.earlier);
      LookupIsStoredLast(capacity, h.earlier, k, m);
      if !Touches(h.op, k) {
        UntouchedKeeps(c, h.op, k);
      } else if h.op.OpInvalidate? {
        StaleMeansMarked(c, h.op.keys, k);
      }
    }
  }

  // ---------------------------------------------------------------------
  // Keys left building
  // ---------------------------------------------------------------------

  /** The last step that set `k` marked it as building. */
  predicate BuildingLast(h: History, k: Key) {
    h.After? && if Touches(h.op, k) then h.op == OpBuilding(k) else BuildingLast(h.earlier, k)
  }

  /** Eviction takes only entries that hold bytes. */
  lemma {:induction false} EvictKeepsUnsized(c: Cache, bytes: nat, k: Key)
    requires k in c.entries && c.entries[k].bytes == 0
    ensures k in EvictFor(c, bytes).entries
    decreases |c.entries|
  {
    if AddUsize(c.resident, bytes) <= c.capacity || SizedKeys(c.entries) == {} {
    } else {
      var victim := Oldest(c.entries);
      assert (c.entries - {victim}).Keys == c.entries.Keys - {victim};
      EvictKeepsUnsized(Evict(c, victim), bytes, k);
    }
  }

  predicate IsBuilding(entries: Entries, k: Key) {
    k in entries && entries[k].state == Building
  }

  lemma UntouchedStaysBuilding(c: Cache, op: Op, k: Key)
    requires WellKept(c) && !Touches(op, k)
    requires op.OpInvalidate? ==> ListsModel(c, op.model, op.keys)
    ensures IsBuilding(Apply(c, op).entries, k) <==> IsBuilding(c.entries, k)
  {
    match op
    case OpBuilding(o) => MarkKeepsAccount(c, o, Building);
    case OpFailed(o) => MarkKeepsAccount(c, o, Failed);
    case OpReady(o, m) =>
      var d := RemoveEntry(c, o);
      RemoveKeepsAccount(c, o);
      EvictKeepsAccount(d, m.bytes);
      if IsBuilding(c.entries, k) {
        EvictKeepsUnsized(d, m.bytes, k);
      }
    case OpInvalidate(_, keys) => StaleMeansMarked(c, keys, k);
    case OpGet(_) =>
  }

  /** In every interleaving a key is building exactly when the last step that set it marked it so:
      a `prepare` that stops at a data error leaves it building until some caller sets it again,
      and no eviction ever clears it. */
  lemma {:induction false} BuildingIsMarkedLast(capacity: nat, h: History, k: Key)
    requires Possible(capacity, h)
    ensures IsBuilding(CacheAfter(capacity, h).entries, k) <==> BuildingLast(h, k)
  {
    if h.Begin? {
    } else {
      var c := CacheAfter(capacity, h.earlier);
      EveryRunAccounts(capacity, h.earlier);
      BuildingIsMarkedLast(capacity, h.earlier, k);
      if !Touches(h.op, k) {
        UntouchedStaysBuilding(c, h.op, k);
      } else if h.op.OpInvalidate? {
        StaleMeansMarked(c, h.op.keys, k);
      }
    }
  }
}
