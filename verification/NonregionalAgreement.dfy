/** The script that prepares nonregional default factors and the worker that applies them, taken
    together (scripts/build_lcia_nonregional_defaults.py, crates/solver-worker/src/lcia_nonregional.rs). */
module NonregionalAgreement {
  import opened Wrappers
  import opened Families
  import opened NonregionalDefaults

  /** What the script compares: the cached numbers without their zero signs. */
  function CachedNumbers(cached: seq<Tagged<Decimal>>): seq<Tagged<real>> {
    seq(|cached|, i requires 0 <= i < |cached| => Tagged(cached[i].key, cached[i].item.value))
  }

  /** What the worker reads. */
  function Reading(cached: seq<Tagged<Decimal>>, round: real -> nat): seq<Record> {
    seq(|cached|, i requires 0 <= i < |cached| => Tagged(cached[i].key, Bits(round, cached[i].item)))
  }

  ghost predicate NumbersMatch(source: seq<Factor>, cached: seq<Tagged<Decimal>>) {
    multiset(Numeric(source)) == multiset(CachedNumbers(cached))
  }

  /** The source default of a family. */
  ghost function DefaultOf(source: seq<Factor>, k: Key): Factor
    requires |Defaults(Family(source, k))| == 1
  {
    Defaults(Family(source, k))[0]
  }

  predicate Reads(round: real -> nat, d: Decimal, e: Decimal) {
    Bits(round, d) == Bits(round, e)
  }

  /** Some cached number of the family reads as the zero of that sign. */
  ghost predicate ReadsZero(cached: seq<Tagged<Decimal>>, round: real -> nat, k: Key, minus: bool) {
    exists i :: 0 <= i < |cached| && cached[i].key == k && Reads(round, cached[i].item, Decimal(0.0, minus))
  }

  /** Where a family with regional entries has a zero default, some cached number of the family
      reads as the zero of the same sign. */
  ghost predicate ZerosAgree(source: seq<Factor>, cached: seq<Tagged<Decimal>>, round: real -> nat)
    requires OneDefaultEach(source)
  {
    forall k :: k in Keys(source) && |Family(source, k)| != 1 && DefaultOf(source, k).item.number.value == 0.0 ==>
      ReadsZero(cached, round, k, DefaultOf(source, k).item.number.minus)
  }

  lemma {:induction false} DefaultIsMember(family: seq<Factor>)
    ensures forall f :: f in Defaults(family) ==> f in family
  {
    if family == [] {
    } else {
      DefaultIsMember(family[..|family| - 1]);
      assert family == family[..|family| - 1] + [family[|family| - 1]];
    }
  }

  lemma DefaultInSource(source: seq<Factor>, k: Key) returns (j: nat)
    requires |Defaults(Family(source, k))| == 1
    ensures j < |source| && source[j] == DefaultOf(source, k) && source[j].key == k
  {
    DefaultIsMember(Family(source, k));
    assert DefaultOf(source, k) in Defaults(Family(source, k));
    FamilyMembers(source, k);
    j :| 0 <= j < |source| && source[j] == DefaultOf(source, k);
  }

  /** Lists with the same keys in the same places have the same families. */
  lemma {:induction false} AlignedFamilies<A, B>(s: seq<Tagged<A>>, t: seq<Tagged<B>>, k: Key)
    requires |s| == |t| && forall i :: 0 <= i < |s| ==> s[i].key == t[i].key
    ensures |Family(s, k)| == |Family(t, k)|
  {
    if s == [] {
    } else {
      AlignedFamilies(s[..|s| - 1], t[..|t| - 1], k);
    }
  }

  lemma AlignedKeys<A, B>(s: seq<Tagged<A>>, t: seq<Tagged<B>>)
    requires |s| == |t| && forall i :: 0 <= i < |s| ==> s[i].key == t[i].key
    ensures Keys(s) == Keys(t)
  {
    forall k ensures k in Keys(s) <==> k in Keys(t) {
      if k in Keys(s) {
        var i :| 0 <= i < |s| && s[i].key == k;
        assert t[i].key == k;
      }
      if k in Keys(t) {
        var i :| 0 <= i < |t| && t[i].key == k;
        assert s[i].key == k;
      }
    }
  }

  /** Whatever order the records come in, they form the same families as the source. */
  lemma SameFamilies(source: seq<Factor>, cached: seq<Tagged<Decimal>>, round: real -> nat, k: Key)
    requires NumbersMatch(source, cached)
    ensures |Family(Reading(cached, round), k)| == |Family(source, k)|
  {
    AlignedFamilies(source, Numeric(source), k);
    FamilyIgnoresOrder(Numeric(source), CachedNumbers(cached), k);
    AlignedFamilies(Reading(cached, round), CachedNumbers(cached), k);
  }

  lemma SameKeys(source: seq<Factor>, cached: seq<Tagged<Decimal>>, round: real -> nat)
    requires NumbersMatch(source, cached)
    ensures Keys(Reading(cached, round)) == Keys(source) && |cached| == |source|
  {
    AlignedKeys(source, Numeric(source));
    KeysIgnoreOrder(Numeric(source), CachedNumbers(cached));
    KeysIgnoreOrder(CachedNumbers(cached), Numeric(source));
    AlignedKeys(Reading(cached, round), CachedNumbers(cached));
    assert |multiset(Numeric(source))| == |multiset(CachedNumbers(cached))|;
  }

  lemma InCache(source: seq<Factor>, cached: seq<Tagged<Decimal>>, j: nat) returns (i: nat)
    requires NumbersMatch(source, cached) && j < |source|
    ensures i < |cached| && cached[i].key == source[j].key && cached[i].item.value == source[j].item.number.value
  {
    var x := Numeric(source)[j];
    assert x in multiset(CachedNumbers(cached));
    assert x in CachedNumbers(cached);
    i :| 0 <= i < |cached| && CachedNumbers(cached)[i] == x;
  }

  lemma InSource(source: seq<Factor>, cached: seq<Tagged<Decimal>>, i: nat) returns (j: nat)
    requires NumbersMatch(source, cached) && i < |cached|
    ensures j < |source| && cached[i].key == source[j].key && cached[i].item.value == source[j].item.number.value
  {
    var x := CachedNumbers(cached)[i];
    assert x in multiset(Numeric(source));
    assert x in Numeric(source);
    j :| 0 <= j < |source| && Numeric(source)[j] == x;
  }

  /** The bits of a family's default are among those read, unless it is a zero of the other sign. */
  lemma DefaultIsRead(source: seq<Factor>, cached: seq<Tagged<Decimal>>, round: real -> nat, k: Key)
    requires NumbersMatch(source, cached) && OneDefaultEach(source) && ZerosAgree(source, cached, round)
    requires k in Keys(source) && |Family(source, k)| != 1
    ensures Tagged(k, Bits(round, DefaultOf(source, k).item.number)) in Reading(cached, round)
  {
    var j := DefaultInSource(source, k);
    var d := DefaultOf(source, k).item.number;
    var i: int;
    if d.value == 0.0 {
      assert ReadsZero(cached, round, k, d.minus);
      i :| 0 <= i < |cached| && cached[i].key == k && Reads(round, cached[i].item, Decimal(0.0, d.minus));
    } else {
      i := InCache(source, cached, j);
    }
    assert Reading(cached, round)[i] == Tagged(k, Bits(round, d));
  }

  lemma ListedEntry(listed: seq<Alternative>, k: Key) returns (a: Alternative)
    requires k in ListedKeys(listed)
    ensures a in listed && a.key == k
  {
    var i :| 0 <= i < |listed| && listed[i].key == k;
    a := listed[i];
  }

  /** What the script prepared is accepted, in any order of the cached records, exactly when zero
      defaults agree in sign with the cache. */
  lemma PreparedIsAccepted(source: seq<Factor>, cached: seq<Tagged<Decimal>>, round: real -> nat, m: PreparedMethod)
    requires NumbersMatch(source, cached) && OneDefaultEach(source) && PreparedFrom(source, round, m)
    requires forall i :: 0 <= i < |cached| ==> cached[i].key.direction in ["INPUT", "OUTPUT"]
    ensures Accepts(m, Reading(cached, round)) <==> ZerosAgree(source, cached, round)
  {
    if ZerosAgree(source, cached, round) {
      AgreementIsAccepted(source, cached, round, m);
    }
    if Accepts(m, Reading(cached, round)) {
      AcceptedAgrees(source, cached, round, m);
    }
  }

  lemma AgreementIsAccepted(source: seq<Factor>, cached: seq<Tagged<Decimal>>, round: real -> nat, m: PreparedMethod)
    requires NumbersMatch(source, cached) && OneDefaultEach(source) && PreparedFrom(source, round, m)
    requires forall i :: 0 <= i < |cached| ==> cached[i].key.direction in ["INPUT", "OUTPUT"]
    requires ZerosAgree(source, cached, round)
    ensures Accepts(m, Reading(cached, round))
  {
    var records := Reading(cached, round);
    SameKeys(source, cached, round);
    forall a | a in m.alternatives ensures Fits(records, a) {
      assert IsEntry(source, round, a);
      var i :| 0 <= i < |m.alternatives| && m.alternatives[i] == a;
      assert a.key in ListedKeys(m.alternatives);
      SameFamilies(source, cached, round, a.key);
      DefaultIsRead(source, cached, round, a.key);
      var at :| 0 <= at < |records| && records[at] == Tagged(a.key, a.bits);
      assert cached[at].key.direction in ["INPUT", "OUTPUT"];
    }
    forall k | k in Keys(records) && k !in ListedKeys(m.alternatives) ensures |Family(records, k)| == 1 {
      SameFamilies(source, cached, round, k);
    }
  }

  lemma AcceptedAgrees(source: seq<Factor>, cached: seq<Tagged<Decimal>>, round: real -> nat, m: PreparedMethod)
    requires OneDefaultEach(source) && PreparedFrom(source, round, m)
    requires Accepts(m, Reading(cached, round))
    ensures ZerosAgree(source, cached, round)
  {
    var records := Reading(cached, round);
    forall k | k in Keys(source) && |Family(source, k)| != 1 && DefaultOf(source, k).item.number.value == 0.0
      ensures ReadsZero(cached, round, k, DefaultOf(source, k).item.number.minus)
    {
      var a := ListedEntry(m.alternatives, k);
      assert IsEntry(source, round, a) && Fits(records, a);
      var i :| 0 <= i < |records| && records[i] == Tagged(k, a.bits);
      assert cached[i].key == k;
    }
  }

  /** `r` is the source default of its family: the same bits where the family has regional entries,
      else the same number, whose zero sign is the cache's. */
  ghost predicate IsSourceDefault(source: seq<Factor>, round: real -> nat, r: Record)
    requires OneDefaultEach(source)
  {
    r.key in Keys(source)
    && var d := DefaultOf(source, r.key).item.number;
       exists sign: bool ::
         r.item == Bits(round, d.(minus := sign)) && (|Family(source, r.key)| != 1 ==> sign == d.minus)
  }

  lemma OnlyIsDefault(source: seq<Factor>, k: Key, f: Factor)
    requires |Family(source, k)| == 1 && |Defaults(Family(source, k))| == 1 && f in source && f.key == k
    ensures DefaultOf(source, k) == f
  {
    FamilyMembers(source, k);
    DefaultIsMember(Family(source, k));
    assert DefaultOf(source, k) in Defaults(Family(source, k));
    assert f in Family(source, k);
  }

  /** Every factor the worker chooses is the source's nonregional default of its family. */
  lemma ChosenIsDefault(source: seq<Factor>, cached: seq<Tagged<Decimal>>, round: real -> nat, m: PreparedMethod,
                        output: seq<Record>, r: Record)
    requires NumbersMatch(source, cached) && OneDefaultEach(source) && PreparedFrom(source, round, m)
    requires OneEach(Keys(Reading(cached, round)), output)
    requires Chosen(Reading(cached, round), m.alternatives, output) && r in output
    ensures IsSourceDefault(source, round, r)
  {
    var records := Reading(cached, round);
    SameKeys(source, cached, round);
    var at :| 0 <= at < |output| && output[at] == r;
    assert r.key in Keys(records);
    var d := DefaultOf(source, r.key).item.number;
    if IsListed(m.alternatives, r) {
      var a :| 0 <= a < |m.alternatives| && r == Tagged(m.alternatives[a].key, m.alternatives[a].bits);
      assert IsEntry(source, round, m.alternatives[a]);
      assert d.(minus := d.minus) == d;
    } else {
      SameFamilies(source, cached, round, r.key);
      FamilyMembers(records, r.key);
      assert r in Family(records, r.key);
      var i :| 0 <= i < |records| && records[i] == r;
      var j := InSource(source, cached, i);
      OnlyIsDefault(source, r.key, source[j]);
      assert r.item == Bits(round, d.(minus := cached[i].item.minus));
    }
  }

  /** Script and worker together, for every source and every order of the cached numbers: they
      succeed exactly when the numbers match, each family has one nonregional default, and zero
      defaults agree in sign with the cache; then every family appears exactly once, with its
      source default. */
  method BuildThenPrepare(source: seq<Factor>, cached: seq<Tagged<Decimal>>, round: real -> nat)
    returns (result: Option<seq<Record>>)
    requires forall i :: 0 <= i < |cached| ==> cached[i].key.direction in ["INPUT", "OUTPUT"]
    ensures result.Some? <==>
      NumbersMatch(source, cached) && OneDefaultEach(source) && ZerosAgree(source, cached, round)
    ensures result.Some? ==>
      OneEach(Keys(source), result.value) && forall r :: r in result.value ==> IsSourceDefault(source, round, r)
  {
    var m := Build(source, multiset(CachedNumbers(cached)), round);
    if m.None? {
      return None;
    }
    PreparedIsAccepted(source, cached, round, m.value);
    result := PrepareRecords(m.value, Reading(cached, round));
    if result.Some? {
      SameKeys(source, cached, round);
      forall r | r in result.value ensures IsSourceDefault(source, round, r) {
        ChosenIsDefault(source, cached, round, m.value, result.value, r);
      }
    }
  }

  /** Minus zero as the default, plain zero for one region ... */
  function SignedSource(k: Key, region: string): seq<Factor> {
    [Tagged(k, Figure(Decimal(0.0, true), None)), Tagged(k, Figure(Decimal(0.0, false), Some(region)))]
  }

  /** ... and two plain zeros in the cache. */
  function UnsignedCache(k: Key): seq<Tagged<Decimal>> {
    [Tagged(k, Decimal(0.0, false)), Tagged(k, Decimal(0.0, false))]
  }

  lemma PairFamily(a: Factor, b: Factor, k: Key)
    requires a.key == b.key == k && IsDefault(a) && !IsDefault(b)
    ensures Family([a, b], k) == [a, b] && Defaults([a, b]) == [a]
    ensures forall o :: o in Keys([a, b]) <==> o == k
  {
    assert [a, b][..1] == [a] && [a][..0] == [];
    assert Family([a], k) == [a] && Defaults([a]) == [a];
    assert [a, b][0].key == k;
  }

  /** The sign condition is needed: for every flow and every named region the script accepts this
      source, and the worker refuses what the script prepared from it. */
  lemma SignedZeroIsRefused(k: Key, region: string, round: real -> nat)
    requires region != "" && !IsWhitespace(region[0])
    ensures NumbersMatch(SignedSource(k, region), UnsignedCache(k)) && OneDefaultEach(SignedSource(k, region))
    ensures forall m ::
      PreparedFrom(SignedSource(k, region), round, m) ==> !Accepts(m, Reading(UnsignedCache(k), round))
  {
    var source, cached := SignedSource(k, region), UnsignedCache(k);
    assert Numeric(source) == CachedNumbers(cached);
    PairFamily(source[0], source[1], k);
    assert source == [source[0], source[1]];
    assert DefaultOf(source, k) == source[0];
    assert !ReadsZero(cached, round, k, true);
    forall m | PreparedFrom(source, round, m) ensures !Accepts(m, Reading(cached, round)) {
      if Accepts(m, Reading(cached, round)) {
        AcceptedAgrees(source, cached, round, m);
      }
    }
  }
}
