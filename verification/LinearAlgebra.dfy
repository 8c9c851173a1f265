/** Vectors over the reals, inner products over a prefix, and linear combinations.
    Float rounding is not modelled: every `float` of the program is a `real` here. */
module LinearAlgebra {

  type Vec = seq<real>

  /** The inner product of the first `n` entries, summed in increasing index order. */
  function Dot(x: Vec, y: Vec, n: nat): real
    requires n <= |x| && n <= |y|
  {
    if n == 0 then 0.0 else Dot(x, y, n - 1) + x[n - 1] * y[n - 1]
  }

  function Scale(a: real, x: Vec): (z: Vec)
    ensures |z| == |x|
  {
    seq(|x|, i requires 0 <= i < |x| => a * x[i])
  }

  /** a*x + y */
  function Axpy(a: real, x: Vec, y: Vec): (z: Vec)
    requires |x| == |y|
    ensures |z| == |x|
  {
    seq(|x|, i requires 0 <= i < |x| => a * x[i] + y[i])
  }

  /** A vector being rewritten from the left: the first `n` entries are done. */
  function Spliced(done: Vec, rest: Vec, n: nat): (z: Vec)
    requires n <= |done| == |rest|
    ensures |z| == |rest|
  {
    done[..n] + rest[n..]
  }

  lemma SplicedEnds(done: Vec, rest: Vec)
    requires |done| == |rest|
    ensures Spliced(done, rest, 0) == rest && Spliced(done, rest, |done|) == done
  {}

  lemma SplicedNext(done: Vec, rest: Vec, n: nat)
    requires n < |done| == |rest|
    ensures Spliced(done, rest, n)[n] == rest[n]
    ensures Spliced(done, rest, n)[n := done[n]] == Spliced(done, rest, n + 1)
  {}

  function Zero(n: nat): (z: Vec)
    ensures |z| == n
    ensures forall i :: 0 <= i < n ==> z[i] == 0.0
  {
    seq(n, i => 0.0)
  }

  lemma ScaleAt(a: real, x: Vec, i: nat)
    requires i < |x|
    ensures Scale(a, x)[i] == x[i] * a
  {}

  lemma ScaleOne(x: Vec)
    ensures Scale(1.0, x) == x
  {}

  /** An entry of a scaled vector depends only on that entry. */
  lemma ScaleLocal(a: real, x: Vec, y: Vec, i: nat)
    requires i < |x| && i < |y| && x[i] == y[i]
    ensures Scale(a, x)[i] == Scale(a, y)[i]
  {}

  lemma AxpyAt(a: real, x: Vec, y: Vec, i: nat)
    requires |x| == |y| && i < |x|
    ensures Axpy(a, x, y)[i] == y[i] + a * x[i]
  {}

  lemma AxpyLocal(a: real, x: Vec, y: Vec, z: Vec, i: nat)
    requires |x| == |y| == |z| && i < |x| && y[i] == z[i]
    ensures Axpy(a, x, y)[i] == Axpy(a, x, z)[i]
  {}

  lemma DotEmpty(x: Vec, y: Vec)
    ensures Dot(x, y, 0) == 0.0
  {}

  lemma DotUnfold(x: Vec, y: Vec, n: nat)
    requires 0 < n <= |x| && n <= |y|
    ensures Dot(x, y, n) == Dot(x, y, n - 1) + x[n - 1] * y[n - 1]
  {}

  lemma DotUnfoldNamed(x: Vec, y: Vec, n: nat, u: real, v: real)
    requires 0 < n <= |x| && n <= |y| && u == x[n - 1] && v == y[n - 1]
    ensures Dot(x, y, n) == Dot(x, y, n - 1) + u * v
  {}

  /** A named product, for proofs that only need it to be the same product on both sides. */
  function RealTerm(u: real, v: real): real { u * v }

  lemma DotNext(x: Vec, y: Vec, n: nat, u: real, v: real)
    requires 0 < n <= |x| && n <= |y| && u == x[n - 1] && v == y[n - 1]
    ensures Dot(x, y, n) == Dot(x, y, n - 1) + RealTerm(u, v)
  {}

  /** One step of every accumulation loop of the program: acc += u * v. */
  method Accumulate(acc: real, u: real, v: real, ghost x: Vec, ghost y: Vec, ghost n: nat) returns (r: real)
    requires n < |x| && n < |y| && u == x[n] && v == y[n] && acc == Dot(x, y, n)
    ensures r == Dot(x, y, n + 1)
  {
    r := acc + u * v;
  }

  /** The same accumulation on top of a value already in the accumulator. */
  method AccumulateOn(ghost start: real, acc: real, u: real, v: real, ghost x: Vec, ghost y: Vec, ghost n: nat)
    returns (r: real)
    requires n < |x| && n < |y| && u == x[n] && v == y[n] && acc == start + Dot(x, y, n)
    ensures r == start + Dot(x, y, n + 1)
  {
    r := acc + u * v;
  }

  lemma {:induction false} DotCongruence(x: Vec, x': Vec, y: Vec, y': Vec, n: nat)
    requires n <= |x| && n <= |y| && n <= |x'| && n <= |y'|
    requires forall i :: 0 <= i < n ==> x[i] == x'[i] && y[i] == y'[i]
    ensures Dot(x, y, n) == Dot(x', y', n)
  {
    if n != 0 { DotCongruence(x, x', y, y', n - 1); }
  }

  lemma {:induction false} DotCommutes(x: Vec, y: Vec, n: nat)
    requires n <= |x| && n <= |y|
    ensures Dot(x, y, n) == Dot(y, x, n)
  {
    if n != 0 { DotCommutes(x, y, n - 1); }
  }

  lemma {:induction false} DotScale(a: real, x: Vec, y: Vec, n: nat)
    requires n <= |x| && n <= |y|
    ensures Dot(Scale(a, x), y, n) == a * Dot(x, y, n)
  {
    if n != 0 {
      DotScale(a, x, y, n - 1);
      ScaledTerm(a, Dot(x, y, n - 1), x[n - 1], y[n - 1]);
    }
  }

  /** Equal factors give equal products; spelling it out keeps large products out of the solver. */
  lemma SameProduct(a: real, b: real, a': real, b': real)
    requires a == a' && b == b'
    ensures a * b == a' * b'
  {}

  lemma ScaledTerm(a: real, d: real, u: real, v: real)
    ensures a * (d + u * v) == a * d + (a * u) * v
  {}

  lemma {:induction false} DotAxpy(a: real, x: Vec, y: Vec, z: Vec, n: nat)
    requires |x| == |y| && n <= |x| && n <= |z|
    ensures Dot(Axpy(a, x, y), z, n) == a * Dot(x, z, n) + Dot(y, z, n)
  {
    if n != 0 {
      DotAxpy(a, x, y, z, n - 1);
      var u, v, w := x[n - 1], y[n - 1], z[n - 1];
      assert (a * u + v) * w == a * (u * w) + v * w;
      assert a * (Dot(x, z, n - 1) + u * w) == a * Dot(x, z, n - 1) + a * (u * w);
    }
  }

  /** The same two laws with the smaller products named. */
  lemma DotScaleNamed(a: real, x: Vec, y: Vec, n: nat, d: real)
    requires n <= |x| && n <= |y| && d == Dot(x, y, n)
    ensures Dot(Scale(a, x), y, n) == a * d
  {
    hide *;
    DotScale(a, x, y, n);
    SameProduct(a, d, a, Dot(x, y, n));
  }

  lemma DotAxpyNamed(a: real, x: Vec, y: Vec, z: Vec, n: nat, d: real, e: real)
    requires |x| == |y| && n <= |x| && n <= |z| && d == Dot(x, z, n) && e == Dot(y, z, n)
    ensures Dot(Axpy(a, x, y), z, n) == a * d + e
  {
    hide *;
    DotAxpy(a, x, y, z, n);
    SameProduct(a, d, a, Dot(x, z, n));
  }

  lemma {:induction false} DotZero(x: Vec, y: Vec, n: nat)
    requires n <= |x| && n <= |y|
    requires forall i :: 0 <= i < n ==> x[i] == 0.0
    ensures Dot(x, y, n) == 0.0
  {
    if n != 0 { DotZero(x, y, n - 1); }
  }

  /** Entries beyond `m` that vanish on one side contribute nothing. */
  lemma {:induction false} DotTailZero(x: Vec, y: Vec, m: nat, n: nat)
    requires m <= n <= |x| && n <= |y|
    requires forall i :: m <= i < n ==> x[i] == 0.0
    ensures Dot(x, y, n) == Dot(x, y, m)
  {
    if m < n { DotTailZero(x, y, m, n - 1); }
  }

  /** A vector that is zero except for a one at `i` picks out entry `i`. */
  lemma {:induction false} DotUnit(x: Vec, y: Vec, i: nat, n: nat)
    requires i < n <= |x| && n <= |y|
    requires forall j :: 0 <= j < n ==> x[j] == if j == i then 1.0 else 0.0
    ensures Dot(x, y, n) == y[i]
  {
    if i < n - 1 {
      DotUnit(x, y, i, n - 1);
    } else {
      DotZero(x, y, n - 1);
    }
  }

  /** The linear combination w[0]*xs[0] + ... + w[n-1]*xs[n-1] of vectors of length `size`. */
  function Combination(w: Vec, xs: seq<Vec>, size: nat, n: nat): (z: Vec)
    requires n <= |w| && n <= |xs|
    requires forall i :: 0 <= i < n ==> |xs[i]| == size
    ensures |z| == size
  {
    if n == 0 then Zero(size)
    else Axpy(w[n - 1], xs[n - 1], Combination(w, xs, size, n - 1))
  }

  lemma CombinationEmpty(w: Vec, xs: seq<Vec>, size: nat)
    ensures Combination(w, xs, size, 0) == Zero(size)
  {}

  lemma CombinationUnfold(w: Vec, xs: seq<Vec>, size: nat, n: nat)
    requires 0 < n <= |w| && n <= |xs|
    requires forall i :: 0 <= i < n ==> |xs[i]| == size
    ensures Combination(w, xs, size, n) == Axpy(w[n - 1], xs[n - 1], Combination(w, xs, size, n - 1))
  {}

  /** Entry `d` of each vector. */
  function Entries(xs: seq<Vec>, d: nat): (p: Vec)
    requires forall i :: 0 <= i < |xs| ==> d < |xs[i]|
    ensures |p| == |xs|
    ensures forall i :: 0 <= i < |xs| ==> p[i] == xs[i][d]
  {
    seq(|xs|, i requires 0 <= i < |xs| => xs[i][d])
  }

  lemma {:induction false} CombinationEntry(w: Vec, xs: seq<Vec>, size: nat, n: nat, d: nat)
    requires n <= |w| && n <= |xs| && d < size
    requires forall i :: 0 <= i < |xs| ==> |xs[i]| == size
    ensures Combination(w, xs, size, n)[d] == Dot(w, Entries(xs, d), n)
  {
    if n == 0 {
      DotEmpty(w, Entries(xs, d));
    } else {
      CombinationUnfold(w, xs, size, n);
      hide *;
      CombinationEntry(w, xs, size, n - 1, d);
      AxpyAt(w[n - 1], xs[n - 1], Combination(w, xs, size, n - 1), d);
      DotUnfold(w, Entries(xs, d), n);
      SameProduct(w[n - 1], xs[n - 1][d], w[n - 1], Entries(xs, d)[n - 1]);
    }
  }

  /** The inner products of each of the first `n` vectors of `xs` with `z`. */
  function Projections(xs: seq<Vec>, z: Vec, n: nat): (p: Vec)
    requires n <= |xs|
    requires forall i :: 0 <= i < n ==> |xs[i]| == |z|
    ensures |p| == n
    ensures forall i :: 0 <= i < n ==> p[i] == Dot(xs[i], z, |z|)
  {
    seq(n, i requires 0 <= i < n => Dot(xs[i], z, |z|))
  }

  /** The inner product is linear: a combination projects to the combination of the projections. */
  lemma {:induction false} DotCombination(w: Vec, xs: seq<Vec>, z: Vec, n: nat)
    requires n <= |w| && n <= |xs|
    requires forall i :: 0 <= i < n ==> |xs[i]| == |z|
    ensures Dot(Combination(w, xs, |z|, n), z, |z|) == Dot(w, Projections(xs, z, n), n)
  {
    if n == 0 {
      DotZero(Zero(|z|), z, |z|);
    } else {
      hide *;
      var before, p := Combination(w, xs, |z|, n - 1), Projections(xs, z, n);
      CombinationUnfold(w, xs, |z|, n);
      DotCombination(w, xs, z, n - 1);
      DotCongruence(w, w, p, Projections(xs, z, n - 1), n - 1);
      CombineLast(w[n - 1], xs[n - 1], before, z, w, p, n);
    }
  }

  lemma CombineLast(a: real, x: Vec, y: Vec, z: Vec, w: Vec, p: Vec, n: nat)
    requires |x| == |y| == |z| && 0 < n <= |w| && n <= |p|
    requires a == w[n - 1] && p[n - 1] == Dot(x, z, |z|) && Dot(y, z, |z|) == Dot(w, p, n - 1)
    ensures Dot(Axpy(a, x, y), z, |z|) == Dot(w, p, n)
  {
    hide *;
    DotAxpy(a, x, y, z, |z|);
    DotUnfold(w, p, n);
    SameProduct(a, Dot(x, z, |z|), w[n - 1], p[n - 1]);
  }
}
