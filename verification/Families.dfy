/** Factors and records grouped by flow and direction, as both the script that prepares nonregional
    defaults and the worker that applies them do
    (scripts/build_lcia_nonregional_defaults.py, crates/solver-worker/src/lcia_nonregional.rs). */
module Families {

  /** Flow, flow version and exchange direction, the last as upper-case text. */
  datatype Key = Key(flow: nat, version: string, direction: string)

  datatype Tagged<T> = Tagged(key: Key, item: T)

  ghost function Keys<T>(s: seq<Tagged<T>>): set<Key> {
    set i | 0 <= i < |s| :: s[i].key
  }

  /** The entries of one family, in order. */
  function Family<T>(s: seq<Tagged<T>>, k: Key): seq<Tagged<T>> {
    if s == [] then []
    else
      var front := Family(s[..|s| - 1], k);
      if s[|s| - 1].key == k then front + [s[|s| - 1]] else front
  }

  lemma {:induction false} FamilyCounts<T>(s: seq<Tagged<T>>, k: Key, x: Tagged<T>)
    ensures multiset(Family(s, k))[x] == if x.key == k then multiset(s)[x] else 0
  {
    if s == [] {
    } else {
      FamilyCounts(s[..|s| - 1], k, x);
      assert s == s[..|s| - 1] + [s[|s| - 1]];
    }
  }

  lemma FamilyWithin<T>(s: seq<Tagged<T>>, t: seq<Tagged<T>>, k: Key)
    requires multiset(s) == multiset(t)
    ensures multiset(Family(s, k)) <= multiset(Family(t, k))
  {
    forall x | x in multiset(Family(s, k)) ensures multiset(Family(s, k))[x] <= multiset(Family(t, k))[x] {
      FamilyCounts(s, k, x);
      FamilyCounts(t, k, x);
    }
  }

  lemma FamilyIgnoresOrder<T>(s: seq<Tagged<T>>, t: seq<Tagged<T>>, k: Key)
    requires multiset(s) == multiset(t)
    ensures multiset(Family(s, k)) == multiset(Family(t, k)) && |Family(s, k)| == |Family(t, k)|
  {
    FamilyWithin(s, t, k);
    FamilyWithin(t, s, k);
    var a, b := multiset(Family(s, k)), multiset(Family(t, k));
    assert a == b;
    assert |a| == |b|;
  }

  lemma KeysIgnoreOrder<T>(s: seq<Tagged<T>>, t: seq<Tagged<T>>)
    requires multiset(s) == multiset(t)
    ensures Keys(s) <= Keys(t)
  {
    forall k | k in Keys(s) ensures k in Keys(t) {
      var i :| 0 <= i < |s| && s[i].key == k;
      assert s[i] in multiset(s);
      assert s[i] in t;
    }
  }

  lemma {:induction false} FamilyMembers<T>(s: seq<Tagged<T>>, k: Key)
    ensures forall x :: x in Family(s, k) <==> x in s && x.key == k
    ensures Family(s, k) != [] <==> k in Keys(s)
  {
    if s == [] {
    } else {
      FamilyMembers(s[..|s| - 1], k);
      assert s == s[..|s| - 1] + [s[|s| - 1]];
      assert Keys(s) == Keys(s[..|s| - 1]) + {s[|s| - 1].key};
    }
  }

  lemma KeysGrow<T>(s: seq<Tagged<T>>, i: nat)
    requires i < |s|
    ensures Keys(s[..i + 1]) == Keys(s[..i]) + {s[i].key}
  {
    assert s[..i + 1] == s[..i] + [s[i]];
  }

  lemma FamilyGrows<T>(s: seq<Tagged<T>>, i: nat, k: Key)
    requires i < |s|
    ensures Family(s[..i + 1], k) == if s[i].key == k then Family(s[..i], k) + [s[i]] else Family(s[..i], k)
  {
    assert s[..i + 1][..i] == s[..i];
  }

  /** Both sides group their entries the same way. */
  method Group<T>(s: seq<Tagged<T>>) returns (groups: map<Key, seq<Tagged<T>>>)
    ensures groups.Keys == Keys(s)
    ensures forall k :: k in groups ==> groups[k] == Family(s, k)
  {
    groups := map[];
    for i := 0 to |s|
      invariant groups.Keys == Keys(s[..i])
      invariant forall k :: k in groups ==> groups[k] == Family(s[..i], k)
    {
      var k := s[i].key;
      KeysGrow(s, i);
      FamilyMembers(s[..i], k);
      forall o
        ensures Family(s[..i + 1], o) == if s[i].key == o then Family(s[..i], o) + [s[i]] else Family(s[..i], o)
      {
        FamilyGrows(s, i, o);
      }
      groups := groups[k := (if k in groups then groups[k] else []) + [s[i]]];
    }
    assert s[..|s|] == s;
  }
}
