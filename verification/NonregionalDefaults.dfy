/** Nonregional default factors: the script that prepares them
    (scripts/build_lcia_nonregional_defaults.py) and the worker that applies them
    (crates/solver-worker/src/lcia_nonregional.rs).

    A decimal has an exact value and, when that is zero, a sign. Comparing decimals ignores the sign;
    the bit pattern of the 64-bit float keeps it. Rounding of other values is an arbitrary function
    to bit patterns, the same on both sides. */
module NonregionalDefaults {
  import opened Wrappers
  import opened Families

  /** `minus` is read only where the value is zero. */
  datatype Decimal = Decimal(value: real, minus: bool)

  const PLUS_ZERO := 0
  const MINUS_ZERO := 0x8000_0000_0000_0000

  /** The bit pattern of a decimal, given that of every nonzero value. */
  function Bits(round: real -> nat, d: Decimal): nat {
    if d.value != 0.0 then round(d.value) else if d.minus then MINUS_ZERO else PLUS_ZERO
  }

  /** The two zeros differ in the sign bit, which is the highest, and in nothing else. */
  lemma ZeroSignIsTopBit(round: real -> nat, d: Decimal)
    requires d.value == 0.0
    ensures Bits(round, d) / 0x8000_0000_0000_0000 == (if d.minus then 1 else 0)
    ensures Bits(round, d) % 0x8000_0000_0000_0000 == 0
  {
  }

  /** A source factor's decimal and its location, if any. */
  datatype Figure = Figure(number: Decimal, location: Option<string>)

  type Factor = Tagged<Figure>

  /** A cached numeric factor: no location, the value as its bit pattern. */
  type Record = Tagged<nat>

  datatype Alternative = Alternative(key: Key, bits: nat, count: nat)

  datatype PreparedMethod = PreparedMethod(factorCount: nat, defaultCount: nat, alternatives: seq<Alternative>)

  // ---------------------------------------------------------------------
  // The producer
  // ---------------------------------------------------------------------

  predicate IsWhitespace(c: char) {
    var u := c as int;
    || 0x09 <= u <= 0x0D || 0x1C <= u <= 0x20 || u == 0x85 || u == 0xA0 || u == 0x1680
    || 0x2000 <= u <= 0x200A || u == 0x2028 || u == 0x2029 || u == 0x202F || u == 0x205F || u == 0x3000
  }

  /** An absent or blank location marks the nonregional default. */
  predicate IsDefault(f: Factor) {
    f.item.location.None?
    || forall i :: 0 <= i < |f.item.location.value| ==> IsWhitespace(f.item.location.value[i])
  }

  /** The code points that `str.strip` removes. */
  const STRIPPED: set<int> := {
    9, 10, 11, 12, 13, 28, 29, 30, 31, 32, 0x85, 0xA0, 0x1680, 0x2000, 0x2001, 0x2002, 0x2003, 0x2004, 0x2005,
    0x2006, 0x2007, 0x2008, 0x2009, 0x200A, 0x2028, 0x2029, 0x202F, 0x205F, 0x3000}

  lemma WhitespaceIsStripped(c: char)
    ensures IsWhitespace(c) <==> c as int in STRIPPED
  {
  }

  /** It names no location, or a blank one. */
  ghost predicate Unlocated(f: Factor) {
    match f.item.location
    case None => true
    case Some(name) => forall i :: 0 <= i < |name| ==> IsWhitespace(name[i])
  }

  /** Position `i` holds the only factor of the family that names no location. */
  ghost predicate OnlyUnlocated(source: seq<Factor>, k: Key, i: int) {
    && 0 <= i < |source| && source[i].key == k && Unlocated(source[i])
    && forall j :: 0 <= j < |source| && source[j].key == k && Unlocated(source[j]) ==> j == i
  }

  /** The defaults of the first `n` factors in a family: none, one at a known position, or more. */
  lemma {:induction false} DefaultsCount(source: seq<Factor>, k: Key)
    ensures var defaults := Defaults(Family(source, k));
            && (|defaults| == 0 <==> forall i :: 0 <= i < |source| && source[i].key == k ==> !Unlocated(source[i]))
            && (|defaults| == 1 <==> exists i :: OnlyUnlocated(source, k, i))
            && (|defaults| == 1 ==> exists i :: OnlyUnlocated(source, k, i) && defaults[0] == source[i])
  {
    if source == [] {
    } else {
      var front, last := source[..|source| - 1], source[|source| - 1];
      DefaultsCount(front, k);
      assert forall i :: 0 <= i < |front| ==> front[i] == source[i];
      if last.key == k {
        var family := Family(front, k);
        assert Family(source, k) == family + [last];
        assert (family + [last])[..|family|] == family;
        assert Defaults(family + [last]) == Defaults(family) + if Unlocated(last) then [last] else [];
      }
      assert source == front + [last];
      OnlyGrows(front, last, k);
      if i :| OnlyUnlocated(front, k, i) {
        assert OnlyUnlocated(source, k, i) <==> !(last.key == k && Unlocated(last));
      }
      if i :| OnlyUnlocated(source, k, i) {
        assert i == |front| || OnlyUnlocated(front, k, i);
      }
    }
  }

  /** Each family has one default exactly when one of its factors names no location, and the default is
      that factor. */
  lemma OneDefaultMeans(source: seq<Factor>)
    ensures OneDefaultEach(source) <==> forall k :: k in Keys(source) ==> exists i :: OnlyUnlocated(source, k, i)
    ensures OneDefaultEach(source) ==>
      forall k, i :: k in Keys(source) && OnlyUnlocated(source, k, i) ==> Defaults(Family(source, k)) == [source[i]]
  {
    forall k | k in Keys(source)
      ensures |Defaults(Family(source, k))| == 1 <==> exists i :: OnlyUnlocated(source, k, i)
      ensures forall i :: |Defaults(Family(source, k))| == 1 && OnlyUnlocated(source, k, i) ==>
        Defaults(Family(source, k)) == [source[i]]
    {
      DefaultsCount(source, k);
      assert forall i, j :: OnlyUnlocated(source, k, i) && OnlyUnlocated(source, k, j) ==> i == j;
    }
  }

  lemma OnlyGrows(front: seq<Factor>, last: Factor, k: Key)
    ensures forall i :: 0 <= i < |front| ==>
      (OnlyUnlocated(front + [last], k, i) <==> OnlyUnlocated(front, k, i) && !(last.key == k && Unlocated(last)))
    ensures OnlyUnlocated(front + [last], k, |front|) <==>
      last.key == k && Unlocated(last) && forall i :: 0 <= i < |front| && front[i].key == k ==> !Unlocated(front[i])
  {
    var more := front + [last];
    assert more[|front|] == last && forall i :: 0 <= i < |front| ==> more[i] == front[i];
  }

  function Defaults(family: seq<Factor>): seq<Factor> {
    if family == [] then []
    else Defaults(family[..|family| - 1]) + (if IsDefault(family[|family| - 1]) then [family[|family| - 1]] else [])
  }

  /** The source values without locations. */
  function Numeric(s: seq<Factor>): seq<Tagged<real>> {
    seq(|s|, i requires 0 <= i < |s| => Tagged(s[i].key, s[i].item.number.value))
  }

  ghost predicate OneDefaultEach(source: seq<Factor>) {
    forall k :: k in Keys(source) ==> |Defaults(Family(source, k))| == 1
  }

  ghost function ListedKeys(listed: seq<Alternative>): set<Key> {
    set i | 0 <= i < |listed| :: listed[i].key
  }

  lemma ListedSnoc(listed: seq<Alternative>, a: Alternative)
    ensures ListedKeys(listed + [a]) == ListedKeys(listed) + {a.key}
  {
    var more := listed + [a];
    assert more[|listed|] == a && forall i :: 0 <= i < |listed| ==> more[i] == listed[i];
    forall k | k in ListedKeys(listed) + {a.key} ensures k in ListedKeys(more) {
      if k in ListedKeys(listed) {
        var i :| 0 <= i < |listed| && listed[i].key == k;
        assert more[i].key == k;
      }
    }
  }

  ghost predicate DistinctKeys(listed: seq<Alternative>) {
    forall i, j :: 0 <= i < j < |listed| ==> listed[i].key != listed[j].key
  }

  ghost predicate IsEntry(source: seq<Factor>, round: real -> nat, a: Alternative) {
    var family := Family(source, a.key);
    |family| == a.count != 1 && |Defaults(family)| == 1 && a.bits == Bits(round, Defaults(family)[0].item.number)
  }

  /** The alternatives list exactly the families with regional entries, each with its default. */
  ghost predicate ListsFamilies(source: seq<Factor>, round: real -> nat, done: set<Key>, listed: seq<Alternative>) {
    && DistinctKeys(listed)
    && (forall k :: k in ListedKeys(listed) <==> k in done && |Family(source, k)| != 1)
    && (forall a :: a in listed ==> IsEntry(source, round, a))
  }

  ghost predicate PreparedFrom(source: seq<Factor>, round: real -> nat, m: PreparedMethod) {
    && m.factorCount == |source| && m.defaultCount == |Keys(source)|
    && ListsFamilies(source, round, Keys(source), m.alternatives)
  }

  lemma DistinctSnoc(listed: seq<Alternative>, a: Alternative)
    requires DistinctKeys(listed) && a.key !in ListedKeys(listed)
    ensures DistinctKeys(listed + [a])
  {
    forall i | 0 <= i < |listed| ensures listed[i].key != a.key {
      assert listed[i].key in ListedKeys(listed);
    }
  }

  lemma ListsOneMore(source: seq<Factor>, round: real -> nat, done: set<Key>, listed: seq<Alternative>, k: Key)
    requires ListsFamilies(source, round, done, listed) && k !in done && |Defaults(Family(source, k))| == 1
    ensures
      var family := Family(source, k);
      ListsFamilies(source, round, done + {k},
        if |family| == 1 then listed
        else listed + [Alternative(k, Bits(round, Defaults(family)[0].item.number), |family|)])
  {
    var family := Family(source, k);
    if |family| != 1 {
      var a := Alternative(k, Bits(round, Defaults(family)[0].item.number), |family|);
      ListedSnoc(listed, a);
      DistinctSnoc(listed, a);
      assert IsEntry(source, round, a);
    }
  }

  /** The loop over the families, in any order. */
  method ListAlternatives(source: seq<Factor>, groups: map<Key, seq<Factor>>, round: real -> nat)
    returns (ok: bool, alternatives: seq<Alternative>)
    requires groups.Keys == Keys(source) && forall k :: k in groups ==> groups[k] == Family(source, k)
    ensures ok <==> OneDefaultEach(source)
    ensures ok ==> ListsFamilies(source, round, Keys(source), alternatives)
  {
    alternatives := [];
    var left := groups.Keys;
    ghost var all := Keys(source);
    while left != {}
      invariant left <= all
      invariant forall k :: k in all - left ==> |Defaults(Family(source, k))| == 1
      invariant ListsFamilies(source, round, all - left, alternatives)
      decreases |left|
    {
      var k :| k in left;
      var family := groups[k];
      var defaults := Defaults(family);
      if |defaults| != 1 {
        return false, alternatives;
      }
      ListsOneMore(source, round, all - left, alternatives, k);
      assert all - left + {k} == all - (left - {k});
      left := left - {k};
      if |family| != 1 {
        alternatives := alternatives + [Alternative(k, Bits(round, defaults[0].item.number), |family|)];
      }
    }
    assert all - left == all;
    ok := true;
  }

  /** `build` for one method: it succeeds exactly when the cache holds the same numeric multiset
      and every family has one nonregional default. */
  method Build(source: seq<Factor>, cached: multiset<Tagged<real>>, round: real -> nat)
    returns (m: Option<PreparedMethod>)
    ensures m.Some? <==> multiset(Numeric(source)) == cached && OneDefaultEach(source)
    ensures m.Some? ==> PreparedFrom(source, round, m.value)
  {
    var groups := Group(source);
    if multiset(Numeric(source)) != cached {
      return None;
    }
    var ok, alternatives := ListAlternatives(source, groups, round);
    m := if ok then Some(PreparedMethod(|source|, |groups|, alternatives)) else None;
  }

  // ---------------------------------------------------------------------
  // The consumer
  // ---------------------------------------------------------------------

  predicate IsDirection(text: string) {
    text == "INPUT" || text == "OUTPUT"
  }

  ghost predicate Fits(records: seq<Record>, a: Alternative) {
    && IsDirection(a.key.direction)
    && a.key in Keys(records)
    && |Family(records, a.key)| == a.count
    && Tagged(a.key, a.bits) in records
  }

  /** The alternatives can be applied to the families of `records` one after the other. */
  ghost predicate Applies(records: seq<Record>, listed: seq<Alternative>) {
    DistinctKeys(listed) && forall a :: a in listed ==> Fits(records, a)
  }

  ghost predicate Accepts(m: PreparedMethod, records: seq<Record>) {
    && |records| == m.factorCount && |Keys(records)| == m.defaultCount
    && Applies(records, m.alternatives)
    && forall k :: k in Keys(records) && k !in ListedKeys(m.alternatives) ==> |Family(records, k)| == 1
  }

  /** `output` holds exactly one factor for each of the families in `done`. */
  ghost predicate OneEach(done: set<Key>, output: seq<Record>) {
    Keys(output) == done && forall i, j :: 0 <= i < j < |output| ==> output[i].key != output[j].key
  }

  ghost predicate IsListed(listed: seq<Alternative>, r: Record) {
    exists j :: 0 <= j < |listed| && r == Tagged(listed[j].key, listed[j].bits)
  }

  ghost predicate IsOnly(records: seq<Record>, listed: seq<Alternative>, r: Record) {
    r.key !in ListedKeys(listed) && Family(records, r.key) == [r]
  }

  /** Each factor is the listed default of its family, or the family's only record. */
  ghost predicate Chosen(records: seq<Record>, listed: seq<Alternative>, output: seq<Record>) {
    forall r :: r in output ==> IsListed(listed, r) || IsOnly(records, listed, r)
  }

  lemma OneMore(done: set<Key>, output: seq<Record>, r: Record)
    requires OneEach(done, output) && r.key !in done
    ensures OneEach(done + {r.key}, output + [r])
  {
    KeysGrow(output + [r], |output|);
    assert (output + [r])[..|output|] == output && (output + [r])[..|output| + 1] == output + [r];
    forall i | 0 <= i < |output| ensures output[i].key != r.key {
      assert output[i].key in Keys(output);
    }
  }

  /** The loop over the prepared alternatives. */
  method ApplyAlternatives(records: seq<Record>, listed: seq<Alternative>, groups0: map<Key, seq<Record>>)
    returns (ok: bool, groups: map<Key, seq<Record>>, output: seq<Record>)
    requires groups0.Keys == Keys(records) && forall k :: k in groups0 ==> groups0[k] == Family(records, k)
    ensures ok <==> Applies(records, listed)
    ensures ok ==>
      && groups.Keys == Keys(records) - ListedKeys(listed)
      && (forall k :: k in groups ==> groups[k] == Family(records, k))
      && OneEach(ListedKeys(listed), output) && ListedKeys(listed) <= Keys(records)
      && (forall r :: r in output ==> IsListed(listed, r))
  {
    groups, output := groups0, [];
    for i := 0 to |listed|
      invariant Applies(records, listed[..i])
      invariant groups.Keys == Keys(records) - ListedKeys(listed[..i]) && ListedKeys(listed[..i]) <= Keys(records)
      invariant forall k :: k in groups ==> groups[k] == Family(records, k)
      invariant OneEach(ListedKeys(listed[..i]), output)
      invariant forall r :: r in output ==> IsListed(listed, r)
    {
      var prepared := listed[i];
      assert listed[..i + 1] == listed[..i] + [prepared];
      ListedSnoc(listed[..i], prepared);
      FamilyMembers(records, prepared.key);
      var chosen: Record := Tagged(prepared.key, prepared.bits);
      if !IsDirection(prepared.key.direction) || prepared.key !in groups
         || |groups[prepared.key]| != prepared.count || chosen !in groups[prepared.key] {
        NotApplicable(records, listed, i);
        return false, groups, output;
      }
      DistinctSnoc(listed[..i], prepared);
      groups := groups - {prepared.key};
      OneMore(ListedKeys(listed[..i]), output, chosen);
      assert IsListed(listed, chosen);
      output := output + [chosen];
    }
    assert listed[..|listed|] == listed;
    ok := true;
  }

  lemma NotApplicable(records: seq<Record>, listed: seq<Alternative>, i: nat)
    requires i < |listed|
    requires !Fits(records, listed[i]) || listed[i].key in ListedKeys(listed[..i])
    ensures !Applies(records, listed)
  {
    if listed[i].key in ListedKeys(listed[..i]) {
      var a :| 0 <= a < |listed[..i]| && listed[..i][a].key == listed[i].key;
      assert listed[a].key == listed[i].key;
    }
  }

  /** The loop over the families left without alternatives, in any order. */
  method TakeSingles(records: seq<Record>, listed: seq<Alternative>, groups: map<Key, seq<Record>>,
                     output0: seq<Record>)
    returns (ok: bool, output: seq<Record>)
    requires groups.Keys == Keys(records) - ListedKeys(listed) && ListedKeys(listed) <= Keys(records)
    requires forall k :: k in groups ==> groups[k] == Family(records, k)
    requires OneEach(ListedKeys(listed), output0) && Chosen(records, listed, output0)
    ensures ok <==> forall k :: k in groups ==> |groups[k]| == 1
    ensures ok ==> OneEach(Keys(records), output) && Chosen(records, listed, output)
  {
    output := output0;
    var left := groups.Keys;
    ghost var all := Keys(records);
    assert all - left == ListedKeys(listed);
    while left != {}
      invariant left <= groups.Keys
      invariant forall k :: k in groups && k !in left ==> |groups[k]| == 1
      invariant OneEach(all - left, output) && Chosen(records, listed, output)
      decreases |left|
    {
      var k :| k in left;
      if |groups[k]| != 1 {
        return false, output;
      }
      TakeOne(records, listed, left, output, k);
      left := left - {k};
      output := output + [groups[k][0]];
    }
    assert all - left == all;
    ok := true;
  }

  lemma TakeOne(records: seq<Record>, listed: seq<Alternative>, left: set<Key>, output: seq<Record>, k: Key)
    requires OneEach(Keys(records) - left, output) && Chosen(records, listed, output)
    requires k in left && k in Keys(records) && k !in ListedKeys(listed) && |Family(records, k)| == 1
    ensures OneEach(Keys(records) - (left - {k}), output + [Family(records, k)[0]])
    ensures Chosen(records, listed, output + [Family(records, k)[0]])
  {
    var only := Family(records, k)[0];
    FamilyMembers(records, k);
    assert only in Family(records, k) && Family(records, k) == [only];
    assert IsOnly(records, listed, only);
    OneMore(Keys(records) - left, output, only);
    assert Keys(records) - left + {k} == Keys(records) - (left - {k});
  }

  /** `prepare_records`: it succeeds exactly on the records the prepared method fits, and then
      yields each family once. */
  method PrepareRecords(m: PreparedMethod, records: seq<Record>) returns (result: Option<seq<Record>>)
    ensures result.Some? <==> Accepts(m, records)
    ensures result.Some? ==> OneEach(Keys(records), result.value) && Chosen(records, m.alternatives, result.value)
    ensures result.Some? ==> forall a :: a in m.alternatives ==> a.key.direction in ["INPUT", "OUTPUT"]
  {
    if |records| != m.factorCount {
      return None;
    }
    var groups := Group(records);
    if |groups| != m.defaultCount {
      return None;
    }
    var ok, output;
    ok, groups, output := ApplyAlternatives(records, m.alternatives, groups);
    if !ok {
      return None;
    }
    ok, output := TakeSingles(records, m.alternatives, groups, output);
    if !ok {
      return None;
    }
    result := Some(output);
  }
}
