/** Direct contributions of processes to one impact score, over exact reals
    (crates/solver-worker/src/contribution_path.rs, crates/solver-core/src/service.rs,
    crates/solver-core/src/data_builder.rs). */
module ContributionAlgebra {
  import opened Wrappers
  import opened Elimination

  datatype Triplet = Triplet(row: int, col: int, value: real)

  ghost predicate InRange(t: seq<Triplet>, rows: nat, columns: nat) {
    forall i :: 0 <= i < |t| ==> 0 <= t[i].row < rows && 0 <= t[i].col < columns
  }

  // ---------------------------------------------------------------------
  // Dense meaning of a triplet list
  // ---------------------------------------------------------------------

  /** Repeated coordinates add up. */
  function Cell(t: seq<Triplet>, row: int, col: int): real {
    if t == [] then 0.0
    else
      var last := t[|t| - 1];
      Cell(t[..|t| - 1], row, col) + (if last.row == row && last.col == col then last.value else 0.0)
  }

  function DenseRow(t: seq<Triplet>, row: int, columns: nat): (r: Vector)
    ensures |r| == columns && forall j :: 0 <= j < columns ==> r[j] == Cell(t, row, j)
  {
    seq(columns, j => Cell(t, row, j))
  }

  /** The product with a vector, as the dense matrix gives it. */
  function Product(t: seq<Triplet>, rows: nat, x: Vector): (g: Vector)
    ensures |g| == rows && forall i :: 0 <= i < rows ==> g[i] == Dot(DenseRow(t, i, |x|), x)
  {
    seq(rows, i => Dot(DenseRow(t, i, |x|), x))
  }

  /** Triplets of I - A: negated entries followed by the unit diagonal. */
  function IdentityTriplets(n: nat): seq<Triplet> {
    if n == 0 then [] else IdentityTriplets(n - 1) + [Triplet(n - 1, n - 1, 1.0)]
  }

  function SystemTriplets(a: seq<Triplet>, n: nat): seq<Triplet> {
    seq(|a|, i requires 0 <= i < |a| => Triplet(a[i].row, a[i].col, -a[i].value)) + IdentityTriplets(n)
  }

  lemma {:induction false} CellOfJoin(s: seq<Triplet>, t: seq<Triplet>, row: int, col: int)
    ensures Cell(s + t, row, col) == Cell(s, row, col) + Cell(t, row, col)
    decreases |t|
  {
    if t == [] {
      assert s + t == s;
    } else {
      CellOfJoin(s, t[..|t| - 1], row, col);
      assert (s + t)[..|s + t| - 1] == s + t[..|t| - 1];
    }
  }

  lemma {:induction false} CellOfNegated(a: seq<Triplet>, row: int, col: int)
    ensures Cell(seq(|a|, i requires 0 <= i < |a| => Triplet(a[i].row, a[i].col, -a[i].value)), row, col)
         == -Cell(a, row, col)
  {
    if a == [] {
    } else {
      var front := a[..|a| - 1];
      CellOfNegated(front, row, col);
      assert seq(|a|, i requires 0 <= i < |a| => Triplet(a[i].row, a[i].col, -a[i].value))[..|a| - 1]
          == seq(|front|, i requires 0 <= i < |front| => Triplet(front[i].row, front[i].col, -front[i].value));
    }
  }

  lemma {:induction false} CellOfIdentity(n: nat, row: int, col: int)
    ensures Cell(IdentityTriplets(n), row, col) == if row == col && 0 <= row < n then 1.0 else 0.0
  {
    if n == 0 {
    } else {
      CellOfIdentity(n - 1, row, col);
      assert IdentityTriplets(n)[..|IdentityTriplets(n)| - 1] == IdentityTriplets(n - 1);
    }
  }

  /** The matrix the builder hands to factorization is I - A. */
  lemma SystemIsIdentityMinus(a: seq<Triplet>, n: nat, dense: Matrix)
    requires |dense| == n && Square(dense)
    requires forall i, j :: 0 <= i < n && 0 <= j < n ==> dense[i][j] == Cell(a, i, j)
    ensures forall i, j :: 0 <= i < n && 0 <= j < n ==>
      Cell(SystemTriplets(a, n), i, j) == IdentityMinus(dense)[i][j]
  {
    forall i, j | 0 <= i < n && 0 <= j < n
      ensures Cell(SystemTriplets(a, n), i, j) == IdentityMinus(dense)[i][j]
    {
      CellOfJoin(seq(|a|, p requires 0 <= p < |a| => Triplet(a[p].row, a[p].col, -a[p].value)),
                 IdentityTriplets(n), i, j);
      CellOfNegated(a, i, j);
      CellOfIdentity(n, i, j);
    }
  }

  // ---------------------------------------------------------------------
  // Dot products under a change of one entry
  // ---------------------------------------------------------------------

  lemma {:induction false} DotRaised(u: Vector, v: Vector, q: nat, d: real, i: nat)
    requires |u| == |v| && q < |v| && i <= |v|
    ensures DotFrom(u, v[q := v[q] + d], i) == DotFrom(u, v, i) + (if i <= q then u[q] * d else 0.0)
    ensures DotFrom(v[q := v[q] + d], u, i) == DotFrom(v, u, i) + (if i <= q then u[q] * d else 0.0)
    decreases |v| - i
  {
    if i == |v| {
    } else {
      DotRaised(u, v, q, d, i + 1);
      if i == q {
        assert u[q] * (v[q] + d) == u[q] * v[q] + u[q] * d;
        assert (v[q] + d) * u[q] == v[q] * u[q] + u[q] * d;
      }
    }
  }

  lemma {:induction false} DotOfZero(u: Vector, z: Vector, i: nat)
    requires |u| == |z| && IsZero(z) && i <= |u|
    ensures DotFrom(u, z, i) == 0.0 && DotFrom(z, u, i) == 0.0
    decreases |u| - i
  {
    if i == |u| {
    } else {
      DotOfZero(u, z, i + 1);
    }
  }

  // ---------------------------------------------------------------------
  // Exchanging the sums over flows and processes
  // ---------------------------------------------------------------------

  /** What one unit of a process contributes directly to the impact. */
  function Intensity(b: seq<Triplet>, c: seq<Triplet>, impact: int, process: int): real {
    if b == [] then 0.0
    else
      var last := b[|b| - 1];
      Intensity(b[..|b| - 1], c, impact, process)
      + (if last.col == process then Cell(c, impact, last.row) * last.value else 0.0)
  }

  function Intensities(b: seq<Triplet>, c: seq<Triplet>, impact: int, n: nat): (r: Vector)
    ensures |r| == n && forall p :: 0 <= p < n ==> r[p] == Intensity(b, c, impact, p)
  {
    seq(n, p => Intensity(b, c, impact, p))
  }

  lemma LastTriplet(front: seq<Triplet>, t: Triplet)
    ensures (front + [t])[..|front|] == front && (front + [t])[|front|] == t
  {
  }

  /** One more biosphere triplet raises one intensity ... */
  lemma RaisedIntensities(front: seq<Triplet>, t: Triplet, c: seq<Triplet>, impact: int, n: nat, share: real)
    requires 0 <= t.col < n && share == Cell(c, impact, t.row) * t.value
    ensures var i := Intensities(front, c, impact, n);
            Intensities(front + [t], c, impact, n) == i[t.col := i[t.col] + share]
  {
    LastTriplet(front, t);
    var i, more := Intensities(front, c, impact, n), Intensities(front + [t], c, impact, n);
    forall p | 0 <= p < n ensures more[p] == i[t.col := i[t.col] + share][p] {
      assert more[p] == Intensity(front + [t], c, impact, p);
    }
  }

  lemma RaisedRow(front: seq<Triplet>, t: Triplet, row: int, n: nat)
    requires 0 <= t.col < n
    ensures var r := DenseRow(front, row, n);
            DenseRow(front + [t], row, n) == if row == t.row then r[t.col := r[t.col] + t.value] else r
  {
    LastTriplet(front, t);
  }

  /** ... and one inventory entry. */
  lemma RaisedProduct(front: seq<Triplet>, t: Triplet, flows: nat, x: Vector, amount: real)
    requires 0 <= t.row < flows && 0 <= t.col < |x| && amount == x[t.col] * t.value
    ensures var g := Product(front, flows, x);
            Product(front + [t], flows, x) == g[t.row := g[t.row] + amount]
  {
    var g, more := Product(front, flows, x), Product(front + [t], flows, x);
    forall f | 0 <= f < flows ensures more[f] == g[t.row := g[t.row] + amount][f] {
      RaisedRow(front, t, f, |x|);
      DotRaised(x, DenseRow(front, f, |x|), t.col, t.value, 0);
      assert more[f] == Dot(DenseRow(front + [t], f, |x|), x);
    }
  }

  ghost predicate Decomposes(b: seq<Triplet>, c: seq<Triplet>, impact: int, flows: nat, x: Vector) {
    Dot(x, Intensities(b, c, impact, |x|)) == Dot(DenseRow(c, impact, flows), Product(b, flows, x))
  }

  lemma NothingDecomposes(c: seq<Triplet>, impact: int, flows: nat, x: Vector)
    ensures Decomposes([], c, impact, flows, x)
  {
    DotOfZero(x, Intensities([], c, impact, |x|), 0);
    forall f | 0 <= f < flows ensures Product([], flows, x)[f] == 0.0 {
      DotOfZero(x, DenseRow([], f, |x|), 0);
    }
    DotOfZero(DenseRow(c, impact, flows), Product([], flows, x), 0);
  }

  lemma LeftRises(front: seq<Triplet>, t: Triplet, c: seq<Triplet>, impact: int, x: Vector, share: real, rise: real)
    requires 0 <= t.col < |x| && share == Cell(c, impact, t.row) * t.value && rise == x[t.col] * share
    ensures Dot(x, Intensities(front + [t], c, impact, |x|)) == Dot(x, Intensities(front, c, impact, |x|)) + rise
  {
    RaisedIntensities(front, t, c, impact, |x|, share);
    DotRaised(x, Intensities(front, c, impact, |x|), t.col, share, 0);
  }

  lemma RightRises(front: seq<Triplet>, t: Triplet, cf: Vector, x: Vector, amount: real, rise: real)
    requires 0 <= t.row < |cf| && 0 <= t.col < |x| && amount == x[t.col] * t.value && rise == cf[t.row] * amount
    ensures Dot(cf, Product(front + [t], |cf|, x)) == Dot(cf, Product(front, |cf|, x)) + rise
  {
    RaisedProduct(front, t, |cf|, x, amount);
    DotRaised(cf, Product(front, |cf|, x), t.row, amount, 0);
  }

  lemma TimesSwap(a: real, b: real, c: real)
    ensures a * (b * c) == b * (a * c)
  {
  }

  /** Both sides rise by activity times factor times amount. */
  lemma OneMoreDecomposes(front: seq<Triplet>, t: Triplet, c: seq<Triplet>, impact: int, flows: nat, x: Vector)
    requires 0 <= t.row < flows && 0 <= t.col < |x| && Decomposes(front, c, impact, flows, x)
    ensures Decomposes(front + [t], c, impact, flows, x)
  {
    var activity, factor := x[t.col], Cell(c, impact, t.row);
    var share, amount := factor * t.value, activity * t.value;
    var rise := activity * share;
    TimesSwap(activity, factor, t.value);
    LeftRises(front, t, c, impact, x, share, rise);
    RightRises(front, t, DenseRow(c, impact, flows), x, amount, rise);
  }

  lemma {:induction false} ContributionsSumToScore(b: seq<Triplet>, c: seq<Triplet>, impact: int, flows: nat, x: Vector)
    requires InRange(b, flows, |x|)
    ensures Dot(x, Intensities(b, c, impact, |x|)) == Dot(DenseRow(c, impact, flows), Product(b, flows, x))
    decreases |b|
  {
    if b == [] {
      NothingDecomposes(c, impact, flows, x);
    } else {
      var t, front := b[|b| - 1], b[..|b| - 1];
      ContributionsSumToScore(front, c, impact, flows, x);
      assert b == front + [t];
      OneMoreDecomposes(front, t, c, impact, flows, x);
    }
  }

  // ---------------------------------------------------------------------
  // The loops
  // ---------------------------------------------------------------------

  function SumFrom(s: Vector, i: nat): real
    requires i <= |s|
    decreases |s| - i
  {
    if i == |s| then 0.0 else s[i] + SumFrom(s, i + 1)
  }

  lemma {:induction false} SumIsDot(s: Vector, u: Vector, v: Vector, i: nat)
    requires |s| == |u| == |v| && i <= |s| && forall p :: 0 <= p < |s| ==> s[p] == u[p] * v[p]
    ensures SumFrom(s, i) == DotFrom(u, v, i)
    decreases |s| - i
  {
    if i == |s| {
    } else {
      SumIsDot(s, u, v, i + 1);
    }
  }

  /** Characterization factors of one impact by flow; flows without a factor are absent. */
  method FactorsByFlow(c: seq<Triplet>, impact: int) returns (ok: bool, factors: map<int, real>)
    ensures (forall i :: 0 <= i < |c| ==> c[i].col >= 0) ==> ok
    ensures ok ==> forall f :: (if f in factors then factors[f] else 0.0) == Cell(c, impact, f)
  {
    factors := map[];
    for i := 0 to |c|
      invariant forall f :: (if f in factors then factors[f] else 0.0) == Cell(c[..i], impact, f)
    {
      var cf := c[i];
      assert c[..i + 1][..i] == c[..i];
      if cf.row == impact {
        if cf.col < 0 {
          return false, factors;
        }
        factors := factors[cf.col := (if cf.col in factors then factors[cf.col] else 0.0) + cf.value];
      }
    }
    assert c[..|c|] == c;
    ok := true;
  }

  method DirectIntensities(b: seq<Triplet>, c: seq<Triplet>, impact: int, factors: map<int, real>, n: nat)
    returns (ok: bool, intensities: Vector)
    requires forall f :: (if f in factors then factors[f] else 0.0) == Cell(c, impact, f)
    ensures (forall i :: 0 <= i < |b| ==> b[i].row >= 0 && 0 <= b[i].col < n) ==> ok
    ensures ok ==> intensities == Intensities(b, c, impact, n)
  {
    intensities := seq(n, _ => 0.0);
    for i := 0 to |b|
      invariant |intensities| == n
      invariant forall p :: 0 <= p < n ==> intensities[p] == Intensity(b[..i], c, impact, p)
    {
      var t := b[i];
      assert b[..i + 1][..i] == b[..i];
      if t.row < 0 {
        return false, intensities;
      }
      assert t.row !in factors ==> Cell(c, impact, t.row) == 0.0;
      if t.row in factors {
        if t.col < 0 || t.col >= n {
          return false, intensities;
        }
        intensities := intensities[t.col := intensities[t.col] + factors[t.row] * t.value];
      }
    }
    assert b[..|b|] == b;
    ok := true;
  }

  /** Activity times intensity, process by process. */
  method Scale(x: Vector, intensities: Vector) returns (direct: Vector)
    requires |intensities| == |x|
    ensures |direct| == |x| && forall p :: 0 <= p < |x| ==> direct[p] == x[p] * intensities[p]
    ensures SumFrom(direct, 0) == Dot(x, intensities)
  {
    direct := seq(|x|, _ => 0.0);
    for p := 0 to |x|
      invariant |direct| == |x|
      invariant forall q :: 0 <= q < p ==> direct[q] == x[q] * intensities[q]
    {
      direct := direct[p := x[p] * intensities[p]];
    }
    SumIsDot(direct, x, intensities, 0);
  }

  /** The direct contributions of `analyze_contribution_path`: on in-range data they exist and add
      up to h[impact] = (C(Bx))[impact], repeated coordinates included. */
  method DirectContributions(b: seq<Triplet>, c: seq<Triplet>, impact: nat, flows: nat, impacts: nat, x: Vector)
    returns (contributions: Option<Vector>)
    requires impact < impacts
    ensures InRange(b, flows, |x|) && InRange(c, impacts, flows) ==>
      && contributions.Some? && |contributions.value| == |x|
      && SumFrom(contributions.value, 0) == Product(c, impacts, Product(b, flows, x))[impact]
      && forall p :: 0 <= p < |x| ==> contributions.value[p] == x[p] * Intensity(b, c, impact, p)
  {
    var ok, factors := FactorsByFlow(c, impact);
    if !ok {
      return None;
    }
    var intensities;
    ok, intensities := DirectIntensities(b, c, impact, factors, |x|);
    if !ok {
      return None;
    }
    var direct := Scale(x, intensities);
    if InRange(b, flows, |x|) {
      ContributionsSumToScore(b, c, impact, flows, x);
      assert |Product(b, flows, x)| == flows;
    }
    contributions := Some(direct);
  }
}
