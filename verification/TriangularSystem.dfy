/** Unit lower-triangular systems (I + L) y = b, where row r of L is `rows[r][..r]`. */
module TriangularSystem {
  import opened LinearAlgebra

  ghost predicate Square(rows: seq<Vec>, n: nat) {
    |rows| == n && forall r :: 0 <= r < n ==> |rows[r]| == n
  }

  /** y solves the first `n` equations of (I + L) y = b. */
  ghost predicate Solves(rows: seq<Vec>, y: Vec, b: Vec, n: nat)
    requires Square(rows, |rows|) && n <= |rows| && n <= |y| && n <= |b|
  {
    forall r {:trigger y[r]} {:trigger b[r]} :: 0 <= r < n ==> y[r] + Dot(rows[r], y, r) == b[r]
  }

  lemma {:induction false} SolutionIsUnique(rows: seq<Vec>, y: Vec, y': Vec, b: Vec, n: nat)
    requires Square(rows, |rows|) && n <= |rows| && n <= |y| && n <= |y'| && n <= |b|
    requires Solves(rows, y, b, n) && Solves(rows, y', b, n)
    ensures y[..n] == y'[..n]
  {
    if n != 0 {
      SolutionIsUnique(rows, y, y', b, n - 1);
      forall i | 0 <= i < n - 1 ensures y[i] == y'[i] {
        assert y[i] == y[..n - 1][i] && y'[i] == y'[..n - 1][i];
      }
      DotCongruence(rows[n - 1], rows[n - 1], y, y', n - 1);
      assert y[n - 1] == y'[n - 1];
    }
  }

  function Column(rows: seq<Vec>, x: nat): (c: Vec)
    requires forall r :: 0 <= r < |rows| ==> x < |rows[r]|
    ensures |c| == |rows|
    ensures forall r :: 0 <= r < |rows| ==> c[r] == rows[r][x]
  {
    seq(|rows|, r requires 0 <= r < |rows| => rows[r][x])
  }

  function Identity(r: nat, x: nat): real { if r == x then 1.0 else 0.0 }

  ghost predicate UnitLower(inverse: seq<Vec>, n: nat)
    requires Square(inverse, n)
  {
    forall r, x {:trigger inverse[r][x]} :: 0 <= r <= x < n ==> inverse[r][x] == Identity(r, x)
  }

  /** (I + L) * inverse == I, entry by entry. */
  ghost predicate RightInverse(rows: seq<Vec>, inverse: seq<Vec>, n: nat)
    requires Square(rows, n) && Square(inverse, n)
  {
    forall r, x {:trigger Identity(r, x)} {:trigger inverse[r][x]} :: 0 <= r < n && 0 <= x < n ==>
      inverse[r][x] + Dot(rows[r], Column(inverse, x), r) == Identity(r, x)
  }

  /** inverse * b */
  function Apply(inverse: seq<Vec>, b: Vec): (y: Vec)
    requires Square(inverse, |b|)
    ensures |y| == |b|
    ensures forall r :: 0 <= r < |b| ==> y[r] == Dot(inverse[r], b, |b|)
  {
    seq(|b|, r requires 0 <= r < |b| => Dot(inverse[r], b, |b|))
  }

  /** w * inverse, restricted to the first `m` rows. */
  function LeftProduct(w: Vec, inverse: seq<Vec>, m: nat, n: nat): (z: Vec)
    requires Square(inverse, n) && m <= |w| && m <= n
    ensures |z| == n
    ensures forall x :: 0 <= x < n ==> z[x] == Dot(w, Column(inverse, x), m)
  {
    seq(n, x requires 0 <= x < n => Dot(w, Column(inverse, x), m))
  }

  /** Exchanging the two sums: w . (inverse b) == (w inverse) . b. */
  lemma {:induction false} DotApply(w: Vec, inverse: seq<Vec>, b: Vec, m: nat)
    requires Square(inverse, |b|) && m <= |w| && m <= |b|
    ensures Dot(w, Apply(inverse, b), m) == Dot(LeftProduct(w, inverse, m, |b|), b, |b|)
  {
    hide *;
    var n := |b|;
    if m == 0 {
      EmptyProduct(w, inverse, n);
      DotZero(LeftProduct(w, inverse, 0, n), b, n);
      DotEmpty(w, Apply(inverse, b));
    } else {
      var before, y := LeftProduct(w, inverse, m - 1, n), Apply(inverse, b);
      ProductNext(w, inverse, m, n);
      ApplyAt(inverse, b, m - 1);
      DotApply(w, inverse, b, m - 1);
      var a, d := w[m - 1], y[m - 1];
      DotAxpyNamed(a, inverse[m - 1], before, b, n, d, Dot(before, b, n));
      DotUnfoldNamed(w, y, m, a, d);
    }
  }

  lemma ApplyAt(inverse: seq<Vec>, b: Vec, r: nat)
    requires Square(inverse, |b|) && r < |b|
    ensures |inverse| == |b| && |inverse[r]| == |b| && Apply(inverse, b)[r] == Dot(inverse[r], b, |b|)
  {}

  lemma EmptyProduct(w: Vec, inverse: seq<Vec>, n: nat)
    requires Square(inverse, n)
    ensures forall x :: 0 <= x < n ==> LeftProduct(w, inverse, 0, n)[x] == 0.0
  {}

  /** One more row. */
  lemma ProductNext(w: Vec, inverse: seq<Vec>, m: nat, n: nat)
    requires Square(inverse, n) && 0 < m <= |w| && m <= n
    ensures |inverse[m - 1]| == n
    ensures LeftProduct(w, inverse, m, n) == Axpy(w[m - 1], inverse[m - 1], LeftProduct(w, inverse, m - 1, n))
  {
    var before := LeftProduct(w, inverse, m - 1, n);
    var after := Axpy(w[m - 1], inverse[m - 1], before);
    forall x | 0 <= x < n ensures after[x] == LeftProduct(w, inverse, m, n)[x] {
      hide Axpy, Dot;
      AxpyAt(w[m - 1], inverse[m - 1], before, x);
      DotUnfold(w, Column(inverse, x), m);
      SameProduct(w[m - 1], inverse[m - 1][x], w[m - 1], Column(inverse, x)[m - 1]);
    }
  }

  /** Applying a right inverse solves the system. */
  lemma InverseSolves(rows: seq<Vec>, inverse: seq<Vec>, b: Vec)
    requires Square(rows, |b|) && Square(inverse, |b|)
    requires RightInverse(rows, inverse, |b|)
    ensures Solves(rows, Apply(inverse, b), b, |b|)
  {
    var n, y := |b|, Apply(inverse, b);
    forall r | 0 <= r < n
      ensures y[r] + Dot(rows[r], y, r) == b[r]
    {
      var left := LeftProduct(rows[r], inverse, r, n);
      DotApply(rows[r], inverse, b, r);
      var unit := Axpy(1.0, inverse[r], left);
      DotAxpy(1.0, inverse[r], left, b, n);
      forall x | 0 <= x < n ensures unit[x] == if x == r then 1.0 else 0.0 {
        assert inverse[r][x] + left[x] == Identity(r, x);
      }
      DotUnit(unit, b, r, n);
    }
  }

  /** Below a unit lower-triangular row, summing only up to the diagonal loses nothing. */
  lemma PrefixSuffices(inverse: seq<Vec>, b: Vec, r: nat)
    requires Square(inverse, |b|) && UnitLower(inverse, |b|) && r < |b|
    ensures Dot(inverse[r], b, r + 1) == Apply(inverse, b)[r]
  {
    DotTailZero(inverse[r], b, r + 1, |b|);
  }
}
