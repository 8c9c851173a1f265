/** Online softmax over a range of positions: running maximum, rescaled sum of weights and
    rescaled weighted sum of values, and what it means for them to be exact. */
module Softmax {
  import opened LinearAlgebra
  import opened ExpLog

  /** A float that may be -INFINITY. */
  datatype Bound = NegInf | Fin(value: real)

  /** score > bound */
  predicate Above(score: real, bound: Bound) {
    bound.NegInf? || score > bound.value
  }

  /** fmaxf */
  function MaxBound(a: Bound, b: Bound): Bound {
    match (a, b)
    case (NegInf, _) => b
    case (_, NegInf) => a
    case (Fin(x), Fin(y)) => if x < y then b else a
  }

  /** expf(bound - reference), which is zero at -INFINITY. */
  function Fade(exp: real -> real, bound: Bound, reference: real): real {
    if bound.NegInf? then 0.0 else exp(bound.value - reference)
  }

  /** What a work item keeps and what it writes to the workspace. */
  datatype Partial = Partial(max: Bound, sum: real, acc: Vec)

  function Empty(size: nat): Partial { Partial(NegInf, 0.0, Zero(size)) }

  // ----- the exact quantities over positions [lo, hi) -----

  function MaxScore(s: seq<real>, lo: nat, hi: nat): Bound
    requires lo <= hi <= |s|
  {
    if lo == hi then NegInf else MaxBound(MaxScore(s, lo, hi - 1), Fin(s[hi - 1]))
  }

  /** The sum of exp(score - m). */
  function SumExp(exp: real -> real, s: seq<real>, m: real, lo: nat, hi: nat): real
    requires lo <= hi <= |s|
  {
    if lo == hi then 0.0 else SumExp(exp, s, m, lo, hi - 1) + exp(s[hi - 1] - m)
  }

  ghost predicate Sized(v: seq<Vec>, size: nat) {
    forall i :: 0 <= i < |v| ==> |v[i]| == size
  }

  /** The sum of exp(score - m) * value. */
  function AccExp(exp: real -> real, s: seq<real>, v: seq<Vec>, size: nat, m: real, lo: nat, hi: nat): (z: Vec)
    requires lo <= hi <= |s| == |v| && Sized(v, size)
    ensures |z| == size
  {
    if lo == hi then Zero(size) else Axpy(exp(s[hi - 1] - m), v[hi - 1], AccExp(exp, s, v, size, m, lo, hi - 1))
  }

  /** The state an online pass over [lo, hi) must end in. */
  function Summary(exp: real -> real, s: seq<real>, v: seq<Vec>, size: nat, lo: nat, hi: nat): (p: Partial)
    requires lo <= hi <= |s| == |v| && Sized(v, size)
    ensures |p.acc| == size
  {
    var m := MaxScore(s, lo, hi);
    if m.NegInf? then Empty(size)
    else Partial(m, SumExp(exp, s, m.value, lo, hi), AccExp(exp, s, v, size, m.value, lo, hi))
  }

  lemma SummaryIs(exp: real -> real, s: seq<real>, v: seq<Vec>, size: nat, lo: nat, hi: nat)
    requires lo <= hi <= |s| == |v| && Sized(v, size)
    ensures Summary(exp, s, v, size, lo, hi).max == MaxScore(s, lo, hi)
    ensures MaxScore(s, lo, hi).Fin? ==>
      var m := MaxScore(s, lo, hi).value;
      Summary(exp, s, v, size, lo, hi)
      == Partial(Fin(m), SumExp(exp, s, m, lo, hi), AccExp(exp, s, v, size, m, lo, hi))
  {}

  lemma {:induction false} MaxScoreEmpty(s: seq<real>, lo: nat, hi: nat)
    requires lo <= hi <= |s|
    ensures MaxScore(s, lo, hi) == NegInf <==> lo == hi
  {}

  /** The maximum bounds every score and is one of them. */
  lemma {:induction false} MaxScoreIsMax(s: seq<real>, lo: nat, hi: nat)
    requires lo < hi <= |s|
    ensures MaxScore(s, lo, hi).Fin?
    ensures forall i :: lo <= i < hi ==> s[i] <= MaxScore(s, lo, hi).value
    ensures exists i :: lo <= i < hi && s[i] == MaxScore(s, lo, hi).value
  {
    if lo == hi - 1 {
      assert s[lo] == MaxScore(s, lo, hi).value;
    } else {
      MaxScoreIsMax(s, lo, hi - 1);
      var m := MaxScore(s, lo, hi - 1).value;
      var j :| lo <= j < hi - 1 && s[j] == m;
      assert s[if m < s[hi - 1] then hi - 1 else j] == MaxScore(s, lo, hi).value;
    }
  }

  // ----- moving the reference -----

  lemma SumShift(a: real, b: real, f: real, a': real, b': real)
    requires a' == a * f && b' == b * f
    ensures a' + b' == (a + b) * f
  {}

  lemma ShiftWeight(exp: real -> real, x: real, m: real, m': real)
    requires Exponential(exp)
    ensures exp(x - m') == exp(x - m) * exp(m - m')
  {
    ExpSum(exp, x - m, m - m', x - m');
  }

  lemma {:induction false} ShiftSum(exp: real -> real, s: seq<real>, m: real, m': real, lo: nat, hi: nat)
    requires Exponential(exp) && lo <= hi <= |s|
    ensures SumExp(exp, s, m', lo, hi) == SumExp(exp, s, m, lo, hi) * exp(m - m')
  {
    hide Exponential;
    if lo < hi {
      ShiftSum(exp, s, m, m', lo, hi - 1);
      ShiftWeight(exp, s[hi - 1], m, m');
      SumShift(SumExp(exp, s, m, lo, hi - 1), exp(s[hi - 1] - m), exp(m - m'),
               SumExp(exp, s, m', lo, hi - 1), exp(s[hi - 1] - m'));
    }
  }

  lemma ScaleAxpy(f: real, a: real, a': real, x: Vec, y: Vec)
    requires |x| == |y| && a' == a * f
    ensures Scale(f, Axpy(a, x, y)) == Axpy(a', x, Scale(f, y))
  {
    forall i | 0 <= i < |x| ensures Scale(f, Axpy(a, x, y))[i] == Axpy(a', x, Scale(f, y))[i] {
      hide *;
      ScaleAt(f, Axpy(a, x, y), i);
      AxpyAt(a, x, y, i);
      ScaleAt(f, y, i);
      AxpyAt(a', x, Scale(f, y), i);
      Rescaled(f, a, a', x[i], y[i]);
    }
  }

  lemma Rescaled(f: real, a: real, a': real, x: real, y: real)
    requires a' == a * f
    ensures (y + a * x) * f == y * f + a' * x
  {}

  lemma ScaleZero(f: real, n: nat)
    ensures Scale(f, Zero(n)) == Zero(n)
  {
    forall i | 0 <= i < n ensures Scale(f, Zero(n))[i] == Zero(n)[i] { ScaleAt(f, Zero(n), i); }
  }

  lemma {:induction false} ShiftAcc(exp: real -> real, s: seq<real>, v: seq<Vec>, size: nat, m: real, m': real,
                                    lo: nat, hi: nat)
    requires Exponential(exp) && lo <= hi <= |s| == |v| && Sized(v, size)
    ensures AccExp(exp, s, v, size, m', lo, hi) == Scale(exp(m - m'), AccExp(exp, s, v, size, m, lo, hi))
  {
    hide Exponential, Scale, Axpy;
    if lo == hi {
      ScaleZero(exp(m - m'), size);
    } else {
      ShiftAcc(exp, s, v, size, m, m', lo, hi - 1);
      ShiftWeight(exp, s[hi - 1], m, m');
      ScaleAxpy(exp(m - m'), exp(s[hi - 1] - m), exp(s[hi - 1] - m'), v[hi - 1],
                AccExp(exp, s, v, size, m, lo, hi - 1));
    }
  }
}
