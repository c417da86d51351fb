/** Canonical JSON (crates/solver-worker/src/calculation_evidence.rs): sorting object members at
    every depth identifies exactly the values that differ in member order only. */
module CanonicalJson {
  import opened Wrappers

  /** Scalars are opaque. */
  datatype Json = Scalar(code: nat) | Arr(items: Items) | Obj(members: Members)
  datatype Items = NoItems | Item(head: Json, tail: Items)
  datatype Members = NoMembers | Entry(key: string, value: Json, rest: Members)

  // ---------------------------------------------------------------------
  // Key order: by code point, which is also the byte order of UTF-8
  // ---------------------------------------------------------------------

  predicate Less(a: string, b: string) {
    b != "" && (a == "" || a[0] < b[0] || (a[0] == b[0] && Less(a[1..], b[1..])))
  }

  lemma {:induction false} LessIsIrreflexive(a: string)
    ensures !Less(a, a)
  {
    if a == "" {
    } else {
      LessIsIrreflexive(a[1..]);
    }
  }

  /** At the first difference the smaller code point comes first, and a prefix before what it begins. */
  lemma {:induction false} LessIsLexicographic(a: string, b: string)
    ensures Less(a, b) <==>
            exists k :: 0 <= k <= |a| && k < |b| && a[..k] == b[..k] && (k == |a| || a[k] < b[k])
  {
    if a == "" || b == "" || a[0] != b[0] {
      assert a[..0] == b[..0];
    } else {
      LessIsLexicographic(a[1..], b[1..]);
      if k :| 0 <= k <= |a| && k < |b| && a[..k] == b[..k] && (k == |a| || a[k] < b[k]) {
        assert k > 0 && a[1..][..k - 1] == a[..k][1..] && b[1..][..k - 1] == b[..k][1..];
      }
      if k :| 0 <= k < |a| && k < |b[1..]| && a[1..][..k] == b[1..][..k]
              && (k == |a[1..]| || a[1..][k] < b[1..][k])
      {
        assert a[..k + 1] == [a[0]] + a[1..][..k] && b[..k + 1] == [b[0]] + b[1..][..k];
      }
    }
  }

  lemma {:induction false} LessIsTotal(a: string, b: string)
    ensures a == b || Less(a, b) || Less(b, a)
    ensures !(Less(a, b) && Less(b, a)) && !Less(a, a)
  {
    LessIsIrreflexive(a);
    if a == "" || b == "" {
    } else {
      LessIsTotal(a[1..], b[1..]);
      if a[0] == b[0] && a[1..] == b[1..] {
        assert a == [a[0]] + a[1..] && b == [b[0]] + b[1..];
      }
    }
  }

  lemma {:induction false} LessIsTransitive(a: string, b: string, c: string)
    requires Less(a, b) && Less(b, c)
    ensures Less(a, c)
  {
    if a == "" || a[0] != b[0] || b[0] != c[0] {
    } else {
      LessIsTransitive(a[1..], b[1..], c[1..]);
    }
  }

  // ---------------------------------------------------------------------
  // Canonical form
  // ---------------------------------------------------------------------

  function Insert(k: string, v: Json, s: Members): Members {
    match s
    case NoMembers => Entry(k, v, NoMembers)
    case Entry(key, value, rest) =>
      if Less(key, k) then Entry(key, value, Insert(k, v, rest)) else Entry(k, v, s)
  }

  /** `sorted_json`. */
  function Canon(j: Json): Json {
    match j
    case Scalar(_) => j
    case Arr(items) => Arr(CanonItems(items))
    case Obj(members) => Obj(CanonMembers(members))
  }

  function CanonItems(s: Items): Items {
    match s
    case NoItems => NoItems
    case Item(head, tail) => Item(Canon(head), CanonItems(tail))
  }

  /** Members with canonical values, sorted by key; members with equal keys keep their order. */
  function CanonMembers(s: Members): Members {
    match s
    case NoMembers => NoMembers
    case Entry(key, value, rest) => Insert(key, Canon(value), CanonMembers(rest))
  }

  function Find(s: Members, k: string): Option<Json> {
    match s
    case NoMembers => None
    case Entry(key, value, rest) => if key == k then Some(value) else Find(rest, k)
  }

  function Remove(s: Members, k: string): Members {
    match s
    case NoMembers => NoMembers
    case Entry(key, value, rest) => if key == k then rest else Entry(key, value, Remove(rest, k))
  }

  /** No object at any depth repeats a key. */
  predicate Unique(j: Json) {
    match j
    case Scalar(_) => true
    case Arr(items) => UniqueItems(items)
    case Obj(members) => UniqueMembers(members)
  }

  predicate UniqueItems(s: Items) {
    s.Item? ==> Unique(s.head) && UniqueItems(s.tail)
  }

  predicate UniqueMembers(s: Members) {
    s.Entry? ==> Find(s.rest, s.key).None? && Unique(s.value) && UniqueMembers(s.rest)
  }

  /** Equal up to the order of object members, at every depth. */
  predicate Same(a: Json, b: Json) {
    match a
    case Scalar(_) => a == b
    case Arr(items) => b.Arr? && SameItems(items, b.items)
    case Obj(members) => b.Obj? && SameMembers(members, b.members)
  }

  predicate SameItems(s: Items, t: Items) {
    match s
    case NoItems => t.NoItems?
    case Item(head, tail) => t.Item? && Same(head, t.head) && SameItems(tail, t.tail)
  }

  /** Each member of `s` has its counterpart in `t`, and none is left over. */
  predicate SameMembers(s: Members, t: Members) {
    match s
    case NoMembers => t.NoMembers?
    case Entry(key, value, rest) =>
      Find(t, key).Some? && Same(value, Find(t, key).value) && SameMembers(rest, Remove(t, key))
  }

  // ---------------------------------------------------------------------
  // Sorted member lists
  // ---------------------------------------------------------------------

  predicate Below(k: string, s: Members) {
    s.Entry? ==> Less(k, s.key) && Below(k, s.rest)
  }

  predicate Sorted(s: Members) {
    s.Entry? ==> Below(s.key, s.rest) && Sorted(s.rest)
  }

  lemma {:induction false} BelowIsTransitive(a: string, b: string, s: Members)
    requires Less(a, b) && Below(b, s)
    ensures Below(a, s)
  {
    if s.NoMembers? {
    } else {
      LessIsTransitive(a, b, s.key);
      BelowIsTransitive(a, b, s.rest);
    }
  }

  lemma {:induction false} InsertBelow(a: string, k: string, v: Json, s: Members)
    requires Less(a, k) && Below(a, s)
    ensures Below(a, Insert(k, v, s))
  {
    if s.NoMembers? || !Less(s.key, k) {
    } else {
      InsertBelow(a, k, v, s.rest);
    }
  }

  lemma {:induction false} InsertSorts(k: string, v: Json, s: Members)
    requires Sorted(s) && Find(s, k).None?
    ensures Sorted(Insert(k, v, s))
  {
    if s.NoMembers? {
    } else {
      LessIsTotal(s.key, k);
      if Less(s.key, k) {
        InsertSorts(k, v, s.rest);
        InsertBelow(s.key, k, v, s.rest);
      } else {
        BelowIsTransitive(k, s.key, s.rest);
      }
    }
  }

  lemma {:induction false} InsertFinds(k: string, v: Json, s: Members, o: string)
    requires Find(s, k).None?
    ensures Find(Insert(k, v, s), o) == if o == k then Some(v) else Find(s, o)
  {
    if s.NoMembers? || !Less(s.key, k) {
    } else {
      InsertFinds(k, v, s.rest, o);
    }
  }

  /** Taking a member out of a sorted list and putting it back. */
  lemma {:induction false} RemoveUndoesInsert(k: string, v: Json, s: Members)
    requires Find(s, k).None?
    ensures Remove(Insert(k, v, s), k) == s
  {
    if s.NoMembers? || !Less(s.key, k) {
    } else {
      RemoveUndoesInsert(k, v, s.rest);
    }
  }

  lemma {:induction false} InsertUndoesRemove(k: string, s: Members)
    requires Sorted(s) && Find(s, k).Some?
    ensures Insert(k, Find(s, k).value, Remove(s, k)) == s
  {
    LessIsTotal(s.key, k);
    if s.key == k {
      if s.rest.Entry? {
        LessIsTotal(s.rest.key, k);
      }
    } else {
      FoundIsAbove(s.key, s.rest, k);
      InsertUndoesRemove(k, s.rest);
    }
  }

  lemma {:induction false} FoundIsAbove(a: string, s: Members, k: string)
    requires Below(a, s) && Find(s, k).Some?
    ensures Less(a, k)
  {
    if s.key == k {
    } else {
      FoundIsAbove(a, s.rest, k);
    }
  }

  lemma {:induction false} RemoveCommutes(k: string, v: Json, s: Members, o: string)
    requires Sorted(s) && Find(s, k).None? && k != o
    ensures Remove(Insert(k, v, s), o) == Insert(k, v, Remove(s, o))
  {
    if s.NoMembers? {
    } else {
      LessIsTotal(s.key, k);
      if Less(s.key, k) {
        RemoveCommutes(k, v, s.rest, o);
      } else if s.key == o && s.rest.Entry? {
        LessIsTransitive(k, s.key, s.rest.key);
        LessIsTotal(k, s.rest.key);
      }
    }
  }

  lemma {:induction false} RemoveKeepsUnique(s: Members, k: string, o: string)
    requires UniqueMembers(s)
    ensures UniqueMembers(Remove(s, k))
    ensures Find(Remove(s, k), o) == if o == k then None else Find(s, o)
  {
    if s.NoMembers? {
    } else {
      RemoveKeepsUnique(s.rest, k, o);
      RemoveKeepsUnique(s.rest, k, s.key);
    }
  }

  // ---------------------------------------------------------------------
  // Canonical member lists
  // ---------------------------------------------------------------------

  function CanonOption(v: Option<Json>): Option<Json> {
    if v.Some? then Some(Canon(v.value)) else None
  }

  lemma {:induction false} CanonFinds(s: Members, k: string)
    requires UniqueMembers(s)
    ensures Find(CanonMembers(s), k) == CanonOption(Find(s, k))
  {
    if s.NoMembers? {
    } else {
      CanonFinds(s.rest, k);
      CanonFinds(s.rest, s.key);
      InsertFinds(s.key, Canon(s.value), CanonMembers(s.rest), k);
    }
  }

  lemma {:induction false} CanonIsSorted(s: Members)
    requires UniqueMembers(s)
    ensures Sorted(CanonMembers(s))
  {
    if s.NoMembers? {
    } else {
      CanonIsSorted(s.rest);
      CanonFinds(s.rest, s.key);
      InsertSorts(s.key, Canon(s.value), CanonMembers(s.rest));
    }
  }

  lemma {:induction false} CanonRemoves(s: Members, k: string)
    requires UniqueMembers(s)
    ensures CanonMembers(Remove(s, k)) == Remove(CanonMembers(s), k)
  {
    if s.NoMembers? {
    } else {
      CanonRemoves(s.rest, k);
      CanonFinds(s.rest, s.key);
      if s.key == k {
        RemoveUndoesInsert(k, Canon(s.value), CanonMembers(s.rest));
      } else {
        CanonIsSorted(s.rest);
        RemoveCommutes(s.key, Canon(s.value), CanonMembers(s.rest), k);
      }
    }
  }

  lemma {:induction false} FoundIsUnique(s: Members, k: string)
    requires UniqueMembers(s) && Find(s, k).Some?
    ensures Unique(Find(s, k).value)
  {
    if s.key == k {
    } else {
      FoundIsUnique(s.rest, k);
    }
  }

  // ---------------------------------------------------------------------
  // Canonical forms are equal exactly when the values are
  // ---------------------------------------------------------------------

  /** Two values without repeated keys have the same canonical form exactly when they are equal up
      to member order at every depth. */
  lemma {:induction false} CanonDecidesSame(a: Json, b: Json)
    requires Unique(a) && Unique(b)
    ensures Canon(a) == Canon(b) <==> Same(a, b)
  {
    match a
    case Scalar(_) =>
    case Arr(items) =>
      if b.Arr? {
        CanonDecidesSameItems(items, b.items);
      }
    case Obj(members) =>
      if b.Obj? {
        CanonDecidesSameMembers(members, b.members);
      }
  }

  lemma {:induction false} CanonDecidesSameItems(s: Items, t: Items)
    requires UniqueItems(s) && UniqueItems(t)
    ensures CanonItems(s) == CanonItems(t) <==> SameItems(s, t)
  {
    if s.NoItems? || t.NoItems? {
    } else {
      CanonDecidesSame(s.head, t.head);
      CanonDecidesSameItems(s.tail, t.tail);
    }
  }

  lemma {:induction false} CanonDecidesSameMembers(s: Members, t: Members)
    requires UniqueMembers(s) && UniqueMembers(t)
    ensures CanonMembers(s) == CanonMembers(t) <==> SameMembers(s, t)
  {
    match s
    case NoMembers =>
      if t.Entry? {
        CanonFinds(t, t.key);
      }
    case Entry(key, value, rest) =>
      CanonFinds(s, key);
      CanonFinds(t, key);
      if Find(t, key).Some? {
        FoundIsUnique(t, key);
        RemoveKeepsUnique(t, key, key);
        CanonDecidesSame(value, Find(t, key).value);
        CanonDecidesSameMembers(rest, Remove(t, key));
        CanonRemoves(s, key);
        CanonRemoves(t, key);
        CanonIsSorted(s);
        CanonIsSorted(t);
        InsertUndoesRemove(key, CanonMembers(s));
        InsertUndoesRemove(key, CanonMembers(t));
      }
  }

  // ---------------------------------------------------------------------
  // Idempotence
  // ---------------------------------------------------------------------

  /** Values are canonical and no member is followed by one with a smaller key. */
  predicate Settled(s: Members) {
    s.Entry? ==> Canon(s.value) == s.value && (s.rest.Entry? ==> !Less(s.rest.key, s.key)) && Settled(s.rest)
  }

  lemma {:induction false} SettledIsFixed(s: Members)
    requires Settled(s)
    ensures CanonMembers(s) == s
  {
    if s.NoMembers? {
    } else {
      SettledIsFixed(s.rest);
    }
  }

  lemma {:induction false} InsertSettles(k: string, v: Json, s: Members)
    requires Settled(s) && Canon(v) == v
    ensures Settled(Insert(k, v, s))
    ensures Insert(k, v, s).Entry? && (Insert(k, v, s).key == k || (s.Entry? && Insert(k, v, s).key == s.key))
  {
    if s.NoMembers? || !Less(s.key, k) {
    } else {
      InsertSettles(k, v, s.rest);
      LessIsTotal(s.key, k);
    }
  }

  /** Sorting twice is sorting once, for every value. */
  lemma {:induction false} CanonIsIdempotent(j: Json)
    ensures Canon(Canon(j)) == Canon(j)
  {
    match j
    case Scalar(_) =>
    case Arr(items) => ItemsIdempotent(items);
    case Obj(members) =>
      MembersSettle(members);
      SettledIsFixed(CanonMembers(members));
  }

  lemma {:induction false} ItemsIdempotent(s: Items)
    ensures CanonItems(CanonItems(s)) == CanonItems(s)
  {
    if s.NoItems? {
    } else {
      CanonIsIdempotent(s.head);
      ItemsIdempotent(s.tail);
    }
  }

  lemma {:induction false} MembersSettle(s: Members)
    ensures Settled(CanonMembers(s))
  {
    if s.NoMembers? {
    } else {
      CanonIsIdempotent(s.value);
      MembersSettle(s.rest);
      InsertSettles(s.key, Canon(s.value), CanonMembers(s.rest));
    }
  }
}
