/** Exact Gaussian elimination as a uniqueness oracle (scripts/check_study_p0_benchmarks.py).

    The script works on exact fractions. Every step is a field operation, so the
    model uses `real`, of which the fractions are a subfield. */
module Elimination {

  type Vector = seq<real>
  type Matrix = seq<Vector>

  predicate Shaped(rows: Matrix, columns: nat) {
    forall i :: 0 <= i < |rows| ==> |rows[i]| == columns
  }

  predicate Square(rows: Matrix) {
    Shaped(rows, |rows|)
  }

  /** Sum of the products of the entries from position `i` on. */
  function DotFrom(a: Vector, v: Vector, i: nat): real
    requires |a| == |v| && i <= |a|
    decreases |a| - i
  {
    if i == |a| then 0.0 else a[i] * v[i] + DotFrom(a, v, i + 1)
  }

  function Dot(a: Vector, v: Vector): real
    requires |a| == |v|
  {
    DotFrom(a, v, 0)
  }

  ghost predicate IsZero(v: Vector) {
    forall j :: 0 <= j < |v| ==> v[j] == 0.0
  }

  /** `v` is in the kernel of `rows`. */
  ghost predicate Annihilates(rows: Matrix, v: Vector)
    requires Shaped(rows, |v|)
  {
    forall i :: 0 <= i < |rows| ==> Dot(rows[i], v) == 0.0
  }

  ghost predicate TrivialKernel(rows: Matrix)
    requires Square(rows)
  {
    forall v: Vector {:trigger Annihilates(rows, v)} :: |v| == |rows| && Annihilates(rows, v) ==> IsZero(v)
  }

  ghost predicate SameKernel(p: Matrix, q: Matrix)
    requires |p| == |q| && Square(p) && Square(q)
  {
    forall v: Vector {:trigger Annihilates(p, v)} {:trigger Annihilates(q, v)} ::
      |v| == |p| ==> (Annihilates(p, v) <==> Annihilates(q, v))
  }

  /** The first `c` columns are in echelon form: pivots on the diagonal, zeros below. */
  ghost predicate Echelon(rows: Matrix, c: nat)
    requires Square(rows) && c <= |rows|
  {
    && (forall j :: 0 <= j < c ==> rows[j][j] != 0.0)
    && (forall i, j :: 0 <= j < c && j < i < |rows| ==> rows[i][j] == 0.0)
  }

  // ---------------------------------------------------------------------
  // Facts about dot products
  // ---------------------------------------------------------------------

  lemma {:induction false} DotSkipsZeros(a: Vector, v: Vector, i: nat, k: nat)
    requires |a| == |v| && i <= k <= |a|
    requires forall j :: i <= j < k ==> a[j] == 0.0 || v[j] == 0.0
    ensures DotFrom(a, v, i) == DotFrom(a, v, k)
    decreases k - i
  {
    if i == k {
    } else {
      DotSkipsZeros(a, v, i + 1, k);
    }
  }

  lemma {:induction false} DotIgnores(a: Vector, v: Vector, w: Vector, i: nat)
    requires |a| == |v| == |w| && i <= |a|
    requires forall j :: i <= j < |a| ==> a[j] == 0.0 || v[j] == w[j]
    ensures DotFrom(a, v, i) == DotFrom(a, w, i)
    decreases |a| - i
  {
    if i == |a| {
    } else {
      DotIgnores(a, v, w, i + 1);
    }
  }

  function Reduced(a: Vector, scale: real, b: Vector): (r: Vector)
    requires |a| == |b|
    ensures |r| == |a|
  {
    seq(|a|, j requires 0 <= j < |a| => a[j] - scale * b[j])
  }

  lemma {:induction false} DotReduced(a: Vector, scale: real, b: Vector, v: Vector, i: nat)
    requires |a| == |b| == |v| && i <= |a|
    ensures DotFrom(Reduced(a, scale, b), v, i) == DotFrom(a, v, i) - scale * DotFrom(b, v, i)
    decreases |a| - i
  {
    if i == |a| {
    } else {
      DotReduced(a, scale, b, v, i + 1);
      assert (a[i] - scale * b[i]) * v[i] == a[i] * v[i] - scale * (b[i] * v[i]);
    }
  }

  lemma {:induction false} DotDifference(a: Vector, v: Vector, w: Vector, d: Vector, i: nat)
    requires |a| == |v| == |w| == |d| && i <= |a|
    requires forall j :: 0 <= j < |d| ==> d[j] == v[j] - w[j]
    ensures DotFrom(a, d, i) == DotFrom(a, v, i) - DotFrom(a, w, i)
    decreases |a| - i
  {
    if i == |a| {
    } else {
      DotDifference(a, v, w, d, i + 1);
      assert a[i] * d[i] == a[i] * v[i] - a[i] * w[i];
    }
  }

  // ---------------------------------------------------------------------
  // Row operations keep the kernel
  // ---------------------------------------------------------------------

  lemma SwapKeepsKernel(rows: Matrix, i: nat, k: nat)
    requires Square(rows) && i < |rows| && k < |rows|
    ensures SameKernel(rows, rows[i := rows[k]][k := rows[i]])
  {
    var swapped := rows[i := rows[k]][k := rows[i]];
    forall v: Vector | |v| == |rows|
      ensures Annihilates(rows, v) <==> Annihilates(swapped, v)
    {
      assert swapped[i] == rows[k] && swapped[k] == rows[i];
      assert forall j :: 0 <= j < |rows| && j != i && j != k ==> swapped[j] == rows[j];
    }
  }

  lemma ReduceKeepsKernel(rows: Matrix, i: nat, c: nat, scale: real)
    requires Square(rows) && c < |rows| && i < |rows| && c != i
    ensures SameKernel(rows, rows[i := Reduced(rows[i], scale, rows[c])])
  {
    var next := rows[i := Reduced(rows[i], scale, rows[c])];
    forall v: Vector | |v| == |rows|
      ensures Annihilates(rows, v) <==> Annihilates(next, v)
    {
      DotReduced(rows[i], scale, rows[c], v, 0);
      assert forall j :: 0 <= j < |rows| && j != i ==> next[j] == rows[j];
      assert Dot(next[i], v) == Dot(rows[i], v) - scale * Dot(rows[c], v);
    }
  }

  // ---------------------------------------------------------------------
  // What the echelon form decides
  // ---------------------------------------------------------------------

  /** Back substitution: with a full set of pivots a kernel vector vanishes from `k` on. */
  lemma {:induction false} PivotsForceZero(rows: Matrix, v: Vector, k: nat)
    requires Square(rows) && Echelon(rows, |rows|) && |v| == |rows| && k <= |rows|
    requires Annihilates(rows, v)
    ensures forall j :: k <= j < |v| ==> v[j] == 0.0
    decreases |rows| - k
  {
    if k == |rows| {
    } else {
      PivotsForceZero(rows, v, k + 1);
      DotSkipsZeros(rows[k], v, 0, k);
      DotSkipsZeros(rows[k], v, k + 1, |v|);
      assert rows[k][k] * v[k] == 0.0;
    }
  }

  /** A column without pivot at or below the diagonal has a kernel vector ending in 1 at that
      column; back substitution fills the entries before it, here from position `k` on. */
  lemma {:induction false} FreeColumnVector(rows: Matrix, c: nat, k: nat) returns (v: Vector)
    requires Square(rows) && c < |rows| && k <= c && Echelon(rows, c)
    requires forall i :: c <= i < |rows| ==> rows[i][c] == 0.0
    ensures |v| == |rows| && v[c] == 1.0
    ensures forall j :: c < j < |v| ==> v[j] == 0.0
    ensures forall i :: k <= i < |rows| ==> Dot(rows[i], v) == 0.0
    decreases c - k
  {
    if k == c {
      v := seq(|rows|, j => if j == c then 1.0 else 0.0);
      forall i | c <= i < |rows| ensures Dot(rows[i], v) == 0.0 {
        DotSkipsZeros(rows[i], v, 0, |v|);
      }
    } else {
      var w := FreeColumnVector(rows, c, k + 1);
      var rest := DotFrom(rows[k], w, k + 1);
      v := w[k := -rest / rows[k][k]];
      DotSkipsZeros(rows[k], v, 0, k);
      DotIgnores(rows[k], w, v, k + 1);
      assert rows[k][k] * v[k] == -rest;
      forall i | k < i < |rows| ensures Dot(rows[i], v) == 0.0 {
        assert rows[i][k] == 0.0;
        DotIgnores(rows[i], w, v, 0);
      }
    }
  }

  // ---------------------------------------------------------------------
  // The oracle
  // ---------------------------------------------------------------------

  /** First row at or below the diagonal with a nonzero entry in `column`. */
  method FindPivot(work: Matrix, column: nat) returns (pivot: nat)
    requires Square(work) && column < |work|
    ensures column <= pivot <= |work|
    ensures forall i :: column <= i < pivot ==> work[i][column] == 0.0
    ensures pivot < |work| ==> work[pivot][column] != 0.0
  {
    pivot := column;
    while pivot < |work| && work[pivot][column] == 0.0
      invariant column <= pivot <= |work|
      invariant forall i :: column <= i < pivot ==> work[i][column] == 0.0
    {
      pivot := pivot + 1;
    }
  }

  /** One row update of the inner loop: the entry under the pivot vanishes, the earlier
      columns and every other row stay as they are. */
  lemma ReduceClearsEntry(work: Matrix, column: nat, index: nat, scale: real)
    requires Square(work) && column < index < |work| && Echelon(work, column)
    requires work[column][column] != 0.0
    requires scale == work[index][column] / work[column][column]
    ensures var next := work[index := Reduced(work[index], scale, work[column])];
            Square(next) && Echelon(next, column) && next[index][column] == 0.0
  {
    var next := work[index := Reduced(work[index], scale, work[column])];
    assert scale * work[column][column] == work[index][column];
    forall j | 0 <= j < column ensures next[index][j] == 0.0 {
      assert work[index][j] == 0.0 && work[column][j] == 0.0;
    }
  }

  /** Clears `column` below the diagonal. */
  method ClearBelow(rows: Matrix, column: nat) returns (work: Matrix)
    requires Square(rows) && column < |rows| && Echelon(rows, column)
    requires rows[column][column] != 0.0
    ensures |work| == |rows| && Square(work) && Echelon(work, column + 1)
    ensures SameKernel(rows, work)
  {
    work := rows;
    for index := column + 1 to |rows|
      invariant |work| == |rows| && Square(work)
      invariant work[column] == rows[column]
      invariant Echelon(work, column)
      invariant forall i :: column < i < index ==> work[i][column] == 0.0
      invariant SameKernel(rows, work)
    {
      var scale := work[index][column] / work[column][column];
      var next := work[index := Reduced(work[index], scale, work[column])];
      ReduceClearsEntry(work, column, index, scale);
      ReduceKeepsKernel(work, index, column, scale);
      forall v: Vector | |v| == |rows| ensures Annihilates(rows, v) <==> Annihilates(next, v) {
        assert Annihilates(work, v) <==> Annihilates(next, v);
      }
      work := next;
    }
  }

  /** `require_unique_solution`: accepts exactly the matrices with a trivial kernel; a rejected
      one comes with a nonzero kernel vector. */
  method RequireUniqueSolution(rows: Matrix) returns (accepted: bool, ghost kernel: Vector)
    requires Square(rows)
    ensures accepted <==> TrivialKernel(rows)
    ensures !accepted ==> |kernel| == |rows| && Annihilates(rows, kernel) && !IsZero(kernel)
  {
    var work := rows;
    kernel := [];
    for column := 0 to |rows|
      invariant |work| == |rows| && Square(work)
      invariant Echelon(work, column)
      invariant SameKernel(rows, work)
    {
      var pivot := FindPivot(work, column);
      if pivot == |work| {
        kernel := FreeColumnVector(work, column, 0);
        assert Annihilates(work, kernel);
        assert kernel[column] != 0.0;
        return false, kernel;
      }
      SwapKeepsKernel(work, column, pivot);
      work := work[column := work[pivot]][pivot := work[column]];
      work := ClearBelow(work, column);
    }
    forall v: Vector | |v| == |rows| && Annihilates(rows, v) ensures IsZero(v) {
      PivotsForceZero(work, v, 0);
    }
    accepted := true;
  }

  // ---------------------------------------------------------------------
  // Checking a stated system
  // ---------------------------------------------------------------------

  function Multiply(rows: Matrix, values: Vector): (r: Vector)
    requires forall i :: 0 <= i < |rows| ==> |rows[i]| == |values|
    ensures |r| == |rows|
    ensures forall i :: 0 <= i < |rows| ==> r[i] == Dot(rows[i], values)
  {
    seq(|rows|, i requires 0 <= i < |rows| => Dot(rows[i], values))
  }

  function IdentityMinus(a: Matrix): (m: Matrix)
    requires forall i :: 0 <= i < |a| ==> |a[i]| == |a|
    ensures |m| == |a| && Square(m)
    ensures forall i, j :: 0 <= i < |a| && 0 <= j < |a| ==> m[i][j] == (if i == j then 1.0 else 0.0) - a[i][j]
  {
    seq(|a|, i requires 0 <= i < |a| =>
      seq(|a|, j requires 0 <= j < |a| => (if i == j then 1.0 else 0.0) - a[i][j]))
  }

  /** The difference of two solutions is in the kernel ... */
  lemma TrivialMakesUnique(m: Matrix, x: Vector, z: Vector)
    requires Square(m) && |x| == |z| == |m| && TrivialKernel(m) && Multiply(m, z) == Multiply(m, x)
    ensures z == x
  {
    var d := seq(|m|, j requires 0 <= j < |m| => z[j] - x[j]);
    forall i | 0 <= i < |m| ensures Dot(m[i], d) == 0.0 {
      DotDifference(m[i], z, x, d, 0);
      assert Multiply(m, z)[i] == Multiply(m, x)[i];
    }
    assert Annihilates(m, d);
    forall j | 0 <= j < |m| ensures z[j] == x[j] {
      assert d[j] == 0.0;
    }
  }

  /** ... and adding a kernel vector to a solution gives another one. */
  lemma KernelMakesSecond(m: Matrix, x: Vector, v: Vector) returns (z: Vector)
    requires Square(m) && |x| == |v| == |m| && Annihilates(m, v) && !IsZero(v)
    ensures |z| == |m| && Multiply(m, z) == Multiply(m, x) && z != x
  {
    z := seq(|m|, j requires 0 <= j < |m| => x[j] + v[j]);
    forall i | 0 <= i < |m| ensures Dot(m[i], z) == Dot(m[i], x) {
      DotDifference(m[i], z, x, v, 0);
    }
    var j :| 0 <= j < |v| && v[j] != 0.0;
    assert z[j] != x[j];
  }

  /** A kernel is trivial exactly when one solvable right-hand side has no second solution. */
  lemma UniqueIffTrivialKernel(m: Matrix, x: Vector)
    requires Square(m) && |x| == |m|
    ensures TrivialKernel(m) <==>
            forall z: Vector :: |z| == |m| && Multiply(m, z) == Multiply(m, x) ==> z == x
  {
    if TrivialKernel(m) {
      forall z: Vector | |z| == |m| && Multiply(m, z) == Multiply(m, x) ensures z == x {
        TrivialMakesUnique(m, x, z);
      }
    } else {
      var v: Vector :| |v| == |m| && Annihilates(m, v) && !IsZero(v);
      var z := KernelMakesSecond(m, x, v);
    }
  }

  datatype SystemCase = SystemCase(
    instances: seq<string>,
    versions: seq<string>,
    a: Matrix,
    b: Matrix,
    c: Matrix,
    y: Vector,
    x: Vector,
    g: Vector,
    h: Vector,
    derivation: string)

  /** Every dimension and completeness demand `check_system` makes before and after the numbers. */
  predicate WellStated(s: SystemCase) {
    var n := |s.instances|;
    && n > 0 && |s.versions| == n
    && (forall i, j :: 0 <= i < j < n ==> s.instances[i] != s.instances[j])
    && (forall i :: 0 <= i < n ==> s.versions[i] != "")
    && |s.a| == n && Shaped(s.a, n)
    && Shaped(s.b, n) && Shaped(s.c, |s.b|)
    && |s.b| > 0 && |s.c| > 0
    && |s.y| == n && |s.x| == n
    && s.derivation != ""
  }

  ghost predicate IsOnlySolution(m: Matrix, x: Vector, y: Vector)
    requires Square(m)
  {
    forall z: Vector {:trigger Multiply(m, z)} :: |z| == |m| ==> (Multiply(m, z) == y <==> z == x)
  }

  /** Inventory and impacts follow from the activities, none of which is negative. */
  predicate ConsequencesHold(s: SystemCase)
    requires WellStated(s)
  {
    && s.g == Multiply(s.b, s.x)
    && s.h == Multiply(s.c, s.g)
    && (forall i :: 0 <= i < |s.x| ==> s.x[i] >= 0.0)
  }

  lemma OnlySolution(m: Matrix, x: Vector, y: Vector)
    requires Square(m) && |x| == |m|
    ensures TrivialKernel(m) && Multiply(m, x) == y <==> IsOnlySolution(m, x, y)
  {
    UniqueIffTrivialKernel(m, x);
    if IsOnlySolution(m, x, y) {
      assert Multiply(m, x) == y;
    }
  }

  // ---------------------------------------------------------------------
  // What a case must satisfy, on its own data
  // ---------------------------------------------------------------------

  /** `rows` times `v` is `r`, row by row. */
  ghost predicate IsProduct(rows: Matrix, v: Vector, r: Vector) {
    |r| == |rows| && forall i :: 0 <= i < |rows| ==> |rows[i]| == |v| && r[i] == Dot(rows[i], v)
  }

  /** `z` balances the demand: what each activity makes exceeds what is used of it by its demand. */
  ghost predicate Balances(s: SystemCase, z: Vector) {
    |z| == |s.a| == |s.y| && forall i :: 0 <= i < |s.a| ==> |s.a[i]| == |z| && z[i] - Dot(s.a[i], z) == s.y[i]
  }

  ghost predicate OnlyBalance(s: SystemCase) {
    forall z: Vector {:trigger Balances(s, z)} :: Balances(s, z) <==> z == s.x
  }

  /** Axes and texts a case must declare. */
  ghost predicate Declares(s: SystemCase) {
    var n := |s.instances|;
    && n > 0 && (forall i, j :: 0 <= i < n && 0 <= j < n && s.instances[i] == s.instances[j] ==> i == j)
    && |s.versions| == n && "" !in s.versions
    && |s.a| == n && (forall row :: row in s.a ==> |row| == n)
    && s.b != [] && (forall row :: row in s.b ==> |row| == n)
    && s.c != [] && (forall row :: row in s.c ==> |row| == |s.b|)
    && |s.y| == n && |s.x| == n
    && s.derivation != ""
  }

  /** `x` alone balances the demand and is nowhere negative; `g` is the inventory of `x`, `h` the impacts
      of `g`. */
  ghost predicate IsSound(s: SystemCase) {
    && Declares(s)
    && OnlyBalance(s)
    && IsProduct(s.b, s.x, s.g) && IsProduct(s.c, s.g, s.h)
    && (forall v :: v in s.x ==> v >= 0.0)
  }

  lemma {:induction false} DotOfIdentityMinus(a: Matrix, z: Vector, i: nat, k: nat)
    requires Square(a) && |z| == |a| && i < |a| && k <= |a|
    ensures DotFrom(IdentityMinus(a)[i], z, k) == (if k <= i then z[i] else 0.0) - DotFrom(a[i], z, k)
    decreases |a| - k
  {
    if k == |a| {
    } else {
      DotOfIdentityMinus(a, z, i, k + 1);
      assert ((if i == k then 1.0 else 0.0) - a[i][k]) * z[k] == (if i == k then z[k] else 0.0) - a[i][k] * z[k];
    }
  }

  lemma BalancesMeans(s: SystemCase, z: Vector)
    requires WellStated(s) && |z| == |s.a|
    ensures Balances(s, z) <==> Multiply(IdentityMinus(s.a), z) == s.y
  {
    forall i | 0 <= i < |s.a| ensures Dot(IdentityMinus(s.a)[i], z) == z[i] - Dot(s.a[i], z) {
      DotOfIdentityMinus(s.a, z, i, 0);
    }
    if Balances(s, z) {
      assert Multiply(IdentityMinus(s.a), z) == s.y;
    }
  }

  lemma DeclaresMeans(s: SystemCase)
    ensures Declares(s) <==> WellStated(s)
  {
    if Declares(s) {
      forall i | 0 <= i < |s.versions| ensures s.versions[i] != "" {
        assert s.versions[i] in s.versions;
      }
      forall i | 0 <= i < |s.a| ensures |s.a[i]| == |s.instances| {
        assert s.a[i] in s.a;
      }
      forall i | 0 <= i < |s.b| ensures |s.b[i]| == |s.instances| {
        assert s.b[i] in s.b;
      }
      forall i | 0 <= i < |s.c| ensures |s.c[i]| == |s.b| {
        assert s.c[i] in s.c;
      }
    }
  }

  lemma ProductMeans(rows: Matrix, v: Vector, r: Vector)
    requires Shaped(rows, |v|)
    ensures IsProduct(rows, v, r) <==> r == Multiply(rows, v)
  {
    if IsProduct(rows, v, r) {
      assert r == Multiply(rows, v);
    }
  }

  lemma ConsequencesMean(s: SystemCase)
    requires WellStated(s)
    ensures ConsequencesHold(s) <==>
            && IsProduct(s.b, s.x, s.g) && IsProduct(s.c, s.g, s.h) && (forall v :: v in s.x ==> v >= 0.0)
  {
    ProductMeans(s.b, s.x, s.g);
    if |s.g| == |s.b| {
      ProductMeans(s.c, s.g, s.h);
    }
    if forall v :: v in s.x ==> v >= 0.0 {
      assert forall i :: 0 <= i < |s.x| ==> s.x[i] in s.x;
    }
  }

  lemma OnlyBalanceMeans(s: SystemCase)
    requires WellStated(s)
    ensures OnlyBalance(s) <==> IsOnlySolution(IdentityMinus(s.a), s.x, s.y)
  {
    var m := IdentityMinus(s.a);
    if OnlyBalance(s) {
      forall z: Vector | |z| == |m| ensures Multiply(m, z) == s.y <==> z == s.x {
        BalancesMeans(s, z);
        assert Balances(s, z) <==> z == s.x;
      }
    }
    if IsOnlySolution(m, s.x, s.y) {
      forall z: Vector ensures Balances(s, z) <==> z == s.x {
        if |z| == |m| {
          BalancesMeans(s, z);
        }
      }
    }
  }

  /** `check_system`: a case is accepted exactly when it declares what it must, `x` is the only solution
      of (I-A)x = y, g = Bx and h = Cg, and no activity is negative. */
  method CheckSystem(s: SystemCase) returns (accepted: bool)
    ensures accepted <==> IsSound(s)
  {
    DeclaresMeans(s);
    if !WellStated(s) {
      return false;
    }
    OnlyBalanceMeans(s);
    ConsequencesMean(s);
    var m := IdentityMinus(s.a);
    var unique, kernel := RequireUniqueSolution(m);
    OnlySolution(m, s.x, s.y);
    accepted := unique && Multiply(m, s.x) == s.y && ConsequencesHold(s);
  }
}
