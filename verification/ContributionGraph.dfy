/** The pruned provider graph of a contribution-path analysis and what a traversal of it records
    (crates/solver-worker/src/contribution_path.rs). */
module ContributionGraph {
  import opened Wrappers

  /** A cutoff that is not a finite number is absent. */
  datatype RawOptions = RawOptions(maxDepth: nat, topK: nat, cutoff: Option<real>, maxNodes: nat)

  datatype Options = Options(maxDepth: nat, topK: nat, cutoff: real, maxNodes: nat)

  function Clamp(v: nat, lo: nat, hi: nat): nat {
    if v < lo then lo else if v > hi then hi else v
  }

  /** The bounds a run may rely on. */
  predicate Allowed(o: RawOptions) {
    && 1 <= o.maxDepth <= 8 && 1 <= o.topK <= 20 && 10 <= o.maxNodes <= 2000
    && o.cutoff.Some? && 0.0 <= o.cutoff.value <= 1.0
  }

  /** No value within bounds is nearer to `given` than `r`. */
  ghost predicate Nearest(given: nat, lo: nat, hi: nat, r: nat) {
    lo <= r <= hi && forall v: nat :: lo <= v <= hi ==> Distance(given, r) <= Distance(given, v)
  }

  function Distance(a: nat, b: nat): nat {
    if a < b then b - a else a - b
  }

  /** `normalized`: each count is the nearest within its bounds; so is a cutoff that is not negative,
      and any other is one percent. */
  function Normalized(o: RawOptions): (r: Options)
    ensures Allowed(o) ==> r == Options(o.maxDepth, o.topK, o.cutoff.value, o.maxNodes)
    ensures Nearest(o.maxDepth, 1, 8, r.maxDepth) && Nearest(o.topK, 1, 20, r.topK)
    ensures Nearest(o.maxNodes, 10, 2000, r.maxNodes)
    ensures o.cutoff.Some? && o.cutoff.value >= 1.0 ==> r.cutoff == 1.0
    ensures o.cutoff.Some? && 0.0 <= o.cutoff.value < 1.0 ==> r.cutoff == o.cutoff.value
    ensures o.cutoff.None? || o.cutoff.value < 0.0 ==> 100.0 * r.cutoff == 1.0
  {
    var cutoff := if o.cutoff.Some? && o.cutoff.value >= 0.0
      then (if o.cutoff.value < 1.0 then o.cutoff.value else 1.0) else 0.01;
    Options(Clamp(o.maxDepth, 1, 8), Clamp(o.topK, 1, 20), cutoff, Clamp(o.maxNodes, 10, 2000))
  }

  /** Providers per process, direct contributions, their absolute total, and the processes the
      snapshot index knows. */
  datatype Model = Model(adjacency: seq<seq<nat>>, direct: seq<real>, total: real, options: Options, known: set<nat>)

  ghost predicate WellFormed(m: Model) {
    && |m.direct| == |m.adjacency| && m.total > 0.0
    && (forall u, i :: 0 <= u < |m.adjacency| && 0 <= i < |m.adjacency[u]| ==> m.adjacency[u][i] < |m.adjacency|)
    && (forall u, i, j :: 0 <= u < |m.adjacency| && 0 <= i < j < |m.adjacency[u]| ==>
          m.adjacency[u][i] != m.adjacency[u][j])
  }

  /** What an analysis hands to the traversal. */
  type Snapshot = m: Model | WellFormed(m) ghost witness Model([], [], 1.0, Options(1, 1, 0.0, 10), {})

  // ---------------------------------------------------------------------
  // Building the provider lists
  // ---------------------------------------------------------------------

  /** A technosphere entry: the provider in its row, the consumer in its column. */
  datatype Supply = Supply(provider: int, consumer: int)

  ghost predicate Strict(s: seq<nat>) {
    forall i, j :: 0 <= i < j < |s| ==> s[i] < s[j]
  }

  function InsertOnce(v: nat, s: seq<nat>): (r: seq<nat>)
    requires Strict(s)
    ensures Strict(r) && forall x :: x in r <==> x == v || x in s
  {
    if s == [] || v < s[0] then [v] + s
    else if v == s[0] then s
    else
      assert forall x :: x in s <==> x == s[0] || x in s[1..];
      var rest := InsertOnce(v, s[1..]);
      assert forall i :: 0 <= i < |s[1..]| ==> s[1..][i] == s[i + 1] && s[0] < s[1..][i];
      assert forall x :: x in rest ==> s[0] < x;
      assert forall i :: 0 <= i < |rest| ==> rest[i] in rest;
      [s[0]] + rest
  }

  /** Sorted, without repetition. */
  function SortDedup(s: seq<nat>): (r: seq<nat>)
    ensures Strict(r) && forall x :: x in r <==> x in s
  {
    if s == [] then []
    else
      assert forall x :: x in s <==> x == s[0] || x in s[1..];
      InsertOnce(s[0], SortDedup(s[1..]))
  }

  ghost predicate Supplies(entries: seq<Supply>, k: nat, provider: nat, consumer: nat) {
    exists i :: 0 <= i < k && i < |entries| && entries[i] == Supply(provider, consumer)
  }

  ghost predicate Pushed(entries: seq<Supply>, k: nat, lists: seq<seq<nat>>) {
    && (forall u: nat, v: nat :: u < |lists| ==> (v in lists[u] <==> Supplies(entries, k, v, u)))
    && (forall u, i :: 0 <= u < |lists| && 0 <= i < |lists[u]| ==> lists[u][i] < |lists|)
  }

  /** `build_provider_adjacency`: it fails exactly on an entry out of bounds; otherwise the list of
      each process holds exactly its providers, ascending and once each. */
  method BuildProviderAdjacency(entries: seq<Supply>, n: nat) returns (adjacency: Option<seq<seq<nat>>>)
    ensures adjacency.Some? <==>
      forall i :: 0 <= i < |entries| ==> 0 <= entries[i].provider < n && 0 <= entries[i].consumer < n
    ensures adjacency.Some? ==>
      && |adjacency.value| == n
      && (forall u, v: nat :: 0 <= u < n ==> (v in adjacency.value[u] <==> Supplies(entries, |entries|, v, u)))
      && (forall u :: 0 <= u < n ==> Strict(adjacency.value[u]))
      && forall direct: seq<real>, total, options, known :: |direct| == n && total > 0.0 ==>
           WellFormed(Model(adjacency.value, direct, total, options, known))
  {
    var lists: seq<seq<nat>> := seq(n, _ => []);
    for k := 0 to |entries|
      invariant |lists| == n && Pushed(entries, k, lists)
      invariant forall i :: 0 <= i < k ==> 0 <= entries[i].provider < n && 0 <= entries[i].consumer < n
    {
      var provider, consumer := entries[k].provider, entries[k].consumer;
      if provider < 0 || consumer < 0 || provider >= n || consumer >= n {
        return None;
      }
      lists := lists[consumer := lists[consumer] + [provider]];
    }
    var sorted := seq(n, u requires 0 <= u < |lists| => SortDedup(lists[u]));
    forall u, i | 0 <= u < n && 0 <= i < |sorted[u]| ensures sorted[u][i] < n {
      assert sorted[u][i] in lists[u];
    }
    adjacency := Some(sorted);
  }

  // ---------------------------------------------------------------------
  // Pruning by cutoff and rank
  // ---------------------------------------------------------------------

  function Magnitude(m: Model, v: nat): real
    requires v < |m.direct|
  {
    if m.direct[v] < 0.0 then -m.direct[v] else m.direct[v]
  }

  predicate Passes(m: Model, v: nat)
    requires m.total > 0.0
  {
    v < |m.direct| && Magnitude(m, v) / m.total >= m.options.cutoff
  }

  /** Larger contributions first, ties by index. */
  predicate Outranks(m: Model, a: nat, b: nat)
    requires a < |m.direct| && b < |m.direct|
  {
    Magnitude(m, a) > Magnitude(m, b) || (Magnitude(m, a) == Magnitude(m, b) && a < b)
  }

  ghost predicate InBounds(m: Model, s: seq<nat>) {
    forall i :: 0 <= i < |s| ==> s[i] < |m.direct|
  }

  ghost predicate Distinct(s: seq<nat>) {
    forall i, j :: 0 <= i < j < |s| ==> s[i] != s[j]
  }

  function InsertRanked(m: Model, v: nat, s: seq<nat>): (r: seq<nat>)
    requires v < |m.direct| && InBounds(m, s)
    ensures InBounds(m, r)
    ensures forall x :: x in r <==> x == v || x in s
  {
    if s == [] || Outranks(m, v, s[0]) then [v] + s
    else
      assert s == [s[0]] + s[1..];
      [s[0]] + InsertRanked(m, v, s[1..])
  }

  /** The providers that pass the cutoff, best first. */
  function Ranked(m: Model, s: seq<nat>): (r: seq<nat>)
    requires m.total > 0.0
    ensures InBounds(m, r)
    ensures forall x :: x in r <==> x in s && Passes(m, x)
  {
    if s == [] then []
    else
      assert s == [s[0]] + s[1..];
      var rest := Ranked(m, s[1..]);
      if Passes(m, s[0]) then InsertRanked(m, s[0], rest) else rest
  }

  ghost predicate Descending(m: Model, s: seq<nat>)
    requires InBounds(m, s)
  {
    forall i, j :: 0 <= i < j < |s| ==> Outranks(m, s[i], s[j])
  }

  lemma {:induction false} InsertDescends(m: Model, v: nat, s: seq<nat>)
    requires v < |m.direct| && InBounds(m, s) && Descending(m, s) && v !in s
    ensures Descending(m, InsertRanked(m, v, s))
  {
    if s == [] || Outranks(m, v, s[0]) {
    } else {
      assert s[0] in s;
      InsertDescends(m, v, s[1..]);
      var t := InsertRanked(m, v, s[1..]);
      forall i | 0 <= i < |t| ensures Outranks(m, s[0], t[i]) {
        assert t[i] in t;
        assert t[i] == v || t[i] in s[1..];
      }
    }
  }

  lemma {:induction false} RankedDescends(m: Model, s: seq<nat>)
    requires m.total > 0.0 && Distinct(s)
    ensures Descending(m, Ranked(m, s))
  {
    if s == [] {
    } else {
      RankedDescends(m, s[1..]);
      if Passes(m, s[0]) {
        forall i | 0 <= i < |s[1..]| ensures s[1..][i] != s[0] {
          assert s[1..][i] == s[i + 1];
        }
        InsertDescends(m, s[0], Ranked(m, s[1..]));
      }
    }
  }

  /** The children a walk follows from `u`: the best `topK` providers above the cutoff. */
  function Kept(m: Snapshot, u: nat): seq<nat>
    requires u < |m.adjacency|
  {
    var ranked := Ranked(m, m.adjacency[u]);
    if |ranked| <= m.options.topK then ranked else ranked[..m.options.topK]
  }

  /** A contribution of either sign makes up the cutoff share of the total. */
  ghost predicate Counts(m: Model, v: nat)
    requires v < |m.direct|
  {
    m.direct[v] >= m.options.cutoff * m.total || -m.direct[v] >= m.options.cutoff * m.total
  }

  ghost predicate NoneCounts(m: Snapshot, u: nat)
    requires u < |m.adjacency|
  {
    forall v :: v in m.adjacency[u] ==> !Counts(m, v)
  }

  /** `x` is farther from zero than `y`. */
  ghost predicate Farther(x: real, y: real) {
    (x > y && x > -y) || (-x > y && -x > -y)
  }

  /** Farther from zero, or as far with the smaller index. */
  ghost predicate Ahead(m: Model, a: nat, b: nat)
    requires a < |m.direct| && b < |m.direct|
  {
    || Farther(m.direct[a], m.direct[b])
    || ((m.direct[a] == m.direct[b] || m.direct[a] == -m.direct[b]) && a < b)
  }

  lemma PassesMeans(m: Snapshot, v: nat)
    requires v < |m.direct|
    ensures Passes(m, v) <==> Counts(m, v)
  {
    var a := Magnitude(m, v);
    assert a == a / m.total * m.total;
    if a / m.total >= m.options.cutoff {
      assert (a / m.total - m.options.cutoff) * m.total >= 0.0;
    } else {
      assert (m.options.cutoff - a / m.total) * m.total > 0.0;
    }
  }

  lemma OutranksMeans(m: Snapshot, a: nat, b: nat)
    requires a < |m.direct| && b < |m.direct|
    ensures Outranks(m, a, b) <==> Ahead(m, a, b)
  {
  }

  /** Providers above the cutoff that are ahead of `v`. */
  ghost function Better(m: Snapshot, u: nat, v: nat): set<nat>
    requires u < |m.adjacency| && v < |m.direct|
  {
    set x | x in m.adjacency[u] && Counts(m, x) && Ahead(m, x, v)
  }

  ghost function Elements(s: seq<nat>): set<nat> {
    set x | x in s
  }

  lemma {:induction false} PrefixSize(s: seq<nat>, k: nat)
    requires Distinct(s) && k <= |s|
    ensures |Elements(s[..k])| == k
  {
    if k == 0 {
    } else {
      PrefixSize(s, k - 1);
      var last := s[k - 1];
      assert s[..k] == s[..k - 1] + [last];
      assert Elements(s[..k]) == Elements(s[..k - 1]) + {last};
      assert last !in Elements(s[..k - 1]);
    }
  }

  /** Those ahead of a provider are those ranked before it. */
  lemma BetterIsBefore(m: Snapshot, u: nat, i: nat)
    requires u < |m.adjacency| && i < |Ranked(m, m.adjacency[u])|
    ensures Better(m, u, Ranked(m, m.adjacency[u])[i]) == Elements(Ranked(m, m.adjacency[u])[..i])
  {
    var ranked := Ranked(m, m.adjacency[u]);
    RankedDescends(m, m.adjacency[u]);
    forall x: nat ensures x in Better(m, u, ranked[i]) <==> x in ranked[..i] {
      if x < |m.direct| {
        PassesMeans(m, x);
        OutranksMeans(m, x, ranked[i]);
      }
      if x in ranked {
        var j :| 0 <= j < |ranked| && ranked[j] == x;
        assert j < i ==> ranked[..i][j] == x;
      }
    }
  }

  /** A provider is kept exactly when its contribution makes up the cutoff share and fewer than `topK`
      such providers are ahead of it. */
  lemma KeptIsTopK(m: Snapshot, u: nat, v: nat)
    requires u < |m.adjacency| && v < |m.direct|
    ensures v in Kept(m, u) <==> v in m.adjacency[u] && Counts(m, v) && |Better(m, u, v)| < m.options.topK
  {
    var ranked := Ranked(m, m.adjacency[u]);
    RankedDescends(m, m.adjacency[u]);
    PassesMeans(m, v);
    if v in ranked {
      var i :| 0 <= i < |ranked| && ranked[i] == v;
      BetterIsBefore(m, u, i);
      PrefixSize(ranked, i);
      assert v in Kept(m, u) <==> i < m.options.topK by {
        if i < m.options.topK && |ranked| > m.options.topK {
          assert ranked[..m.options.topK][i] == v;
        }
      }
    }
  }

  // ---------------------------------------------------------------------
  // Paths
  // ---------------------------------------------------------------------

  /** `p` follows kept children from `root`. */
  ghost predicate IsWalk(m: Snapshot, root: nat, p: seq<nat>) {
    && |p| > 0 && p[0] == root
    && (forall i :: 0 <= i < |p| ==> p[i] < |m.adjacency|)
    && (forall i, j :: 0 <= i && j == i + 1 < |p| ==> p[j] in Kept(m, p[i]))
  }

  ghost predicate Reaches(m: Snapshot, root: nat, goal: nat, length: nat) {
    exists p :: IsWalk(m, root, p) && p[|p| - 1] == goal && |p| == length + 1
  }

  lemma NotRepeated(s: seq<nat>, k: nat)
    requires Distinct(s) && k < |s|
    ensures s[k] !in s[..k]
  {
    assert forall i :: 0 <= i < k ==> s[..k][i] == s[i];
  }

  /** `p` goes on from `path` through one of the first `k` of `kept`. */
  ghost predicate Through(p: seq<nat>, path: seq<nat>, kept: seq<nat>, k: nat) {
    exists j :: 0 <= j < k && j < |kept| && path + [kept[j]] <= p
  }

  lemma KeptInBounds(m: Snapshot, u: nat)
    requires u < |m.adjacency|
    ensures forall v :: v in Kept(m, u) ==> v < |m.adjacency|
  {
    forall v | v in Kept(m, u) ensures v < |m.adjacency| {
      assert v in Ranked(m, m.adjacency[u]);
    }
  }

  /** Kept providers come the farthest from zero first. */
  lemma KeptDescends(m: Snapshot, u: nat)
    requires u < |m.adjacency|
    ensures forall i, j :: 0 <= i < j < |Kept(m, u)| ==>
      Kept(m, u)[i] < |m.direct| && Kept(m, u)[j] < |m.direct| && Ahead(m, Kept(m, u)[i], Kept(m, u)[j])
  {
    RankedDescends(m, m.adjacency[u]);
    var ranked, kept := Ranked(m, m.adjacency[u]), Kept(m, u);
    forall i, j | 0 <= i < j < |kept|
      ensures kept[i] < |m.direct| && kept[j] < |m.direct| && Ahead(m, kept[i], kept[j])
    {
      assert kept[i] == ranked[i] && kept[j] == ranked[j];
      OutranksMeans(m, ranked[i], ranked[j]);
    }
  }

  lemma KeptAreProviders(m: Snapshot, u: nat)
    requires u < |m.adjacency|
    ensures forall v :: v in Kept(m, u) ==> v in m.adjacency[u]
  {
    forall v | v in Kept(m, u) ensures v in m.adjacency[u] {
      assert v in Ranked(m, m.adjacency[u]);
    }
  }

  lemma RankedCounts(m: Snapshot, u: nat)
    requires u < |m.adjacency|
    ensures forall v: nat ::
      v in Ranked(m, m.adjacency[u]) <==> v in m.adjacency[u] && v < |m.direct| && Counts(m, v)
    ensures Ranked(m, m.adjacency[u]) == [] <==> NoneCounts(m, u)
  {
    var ranked := Ranked(m, m.adjacency[u]);
    forall v: nat ensures v in ranked <==> v in m.adjacency[u] && v < |m.direct| && Counts(m, v) {
      if v < |m.direct| {
        PassesMeans(m, v);
      }
    }
    assert ranked != [] ==> ranked[0] in ranked;
  }

  lemma DistinctSplits(s: seq<nat>, k: nat)
    requires Distinct(s) && k <= |s|
    ensures Distinct(s[k..]) && (forall v :: v in s <==> v in s[..k] || v in s[k..])
    ensures forall v :: v in s[..k] ==> v !in s[k..]
  {
    assert s == s[..k] + s[k..];
    forall v | v in s[..k] ensures v !in s[k..] {
      var i :| 0 <= i < k && s[i] == v;
    }
  }

  /** What is ranked but not kept has its own nodes. */
  lemma RankedSplits(m: Snapshot, u: nat)
    requires u < |m.adjacency|
    ensures var ranked, kept := Ranked(m, m.adjacency[u]), Kept(m, u);
            && |kept| <= |ranked| && Distinct(ranked[|kept|..])
            && forall v :: v in ranked <==> v in kept || v in ranked[|kept|..]
    ensures forall v :: v in Kept(m, u) ==> v !in Ranked(m, m.adjacency[u])[|Kept(m, u)|..]
  {
    var ranked, kept := Ranked(m, m.adjacency[u]), Kept(m, u);
    RankedDescends(m, m.adjacency[u]);
    assert kept == ranked[..|kept|];
    DistinctSplits(ranked, |kept|);
  }

  lemma KeptDistinct(m: Snapshot, u: nat)
    requires u < |m.adjacency|
    ensures Distinct(Kept(m, u))
  {
    RankedDescends(m, m.adjacency[u]);
  }

  /** Any walk can be shortened to a simple one with the same end. */
  lemma {:induction false} Shorten(m: Snapshot, root: nat, p: seq<nat>) returns (q: seq<nat>)
    requires IsWalk(m, root, p)
    ensures IsWalk(m, root, q) && Distinct(q) && q[|q| - 1] == p[|p| - 1] && |q| <= |p|
    decreases |p|
  {
    q := p;
    if i, j :| 0 <= i < j < |p| && p[i] == p[j] {
      q := Shorten(m, root, p[..i] + p[j..]);
    }
  }
}
