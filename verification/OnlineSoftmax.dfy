/** The updates a work item performs, and why they compute summaries exactly. */
module OnlineSoftmax {
  import opened LinearAlgebra
  import opened ExpLog
  import opened Softmax

  /** acc * alpha + weight * value, lane by lane. */
  function Blend(alpha: real, acc: Vec, weight: real, value: Vec): (z: Vec)
    requires |acc| == |value|
    ensures |z| == |acc|
  {
    Axpy(weight, value, Scale(alpha, acc))
  }

  /** One position, with the branch on the running maximum. */
  function Push(exp: real -> real, p: Partial, score: real, value: Vec): (r: Partial)
    requires |p.acc| == |value|
    ensures |r.acc| == |p.acc|
  {
    if Above(score, p.max) then
      var alpha := Fade(exp, p.max, score);
      Partial(Fin(score), p.sum * alpha + 1.0, Blend(alpha, p.acc, 1.0, value))
    else
      var weight := exp(score - p.max.value);
      Partial(p.max, p.sum + weight, Blend(1.0, p.acc, weight, value))
  }

  /** One position, branchless. */
  function PushBranchless(exp: real -> real, p: Partial, score: real, value: Vec): (r: Partial)
    requires |p.acc| == |value|
    ensures |r.acc| == |p.acc|
  {
    var newMax := MaxBound(p.max, Fin(score));
    var alpha := if newMax.Fin? then Fade(exp, p.max, newMax.value) else 1.0;
    var weight := if newMax.Fin? then exp(score - newMax.value) else 0.0;
    Partial(newMax, p.sum * alpha + weight, Blend(alpha, p.acc, weight, value))
  }

  /** Two partial results brought to their common maximum. */
  function Merge(exp: real -> real, a: Partial, b: Partial): (r: Partial)
    requires |a.acc| == |b.acc|
    ensures |r.acc| == |a.acc|
  {
    var m := MaxBound(a.max, b.max);
    if m.NegInf? then Empty(|a.acc|)
    else
      var alpha, beta := Fade(exp, a.max, m.value), Fade(exp, b.max, m.value);
      Partial(m, a.sum * alpha + b.sum * beta, Blend(alpha, a.acc, beta, b.acc))
  }

  // ----- a summary seen from any reference -----

  lemma FadeAt(exp: real -> real, m: real, reference: real)
    ensures Fade(exp, Fin(m), reference) == exp(m - reference)
  {}

  /** Moving a summary to any reference recovers the exact sums there, empty ranges included. */
  lemma SummaryAt(exp: real -> real, s: seq<real>, v: seq<Vec>, size: nat, lo: nat, hi: nat, reference: real)
    requires Exponential(exp) && lo <= hi <= |s| == |v| && Sized(v, size)
    ensures var p := Summary(exp, s, v, size, lo, hi);
      && p.sum * Fade(exp, p.max, reference) == SumExp(exp, s, reference, lo, hi)
      && Scale(Fade(exp, p.max, reference), p.acc) == AccExp(exp, s, v, size, reference, lo, hi)
  {
    hide Exponential, Scale, MaxScore;
    var m := MaxScore(s, lo, hi);
    MaxScoreEmpty(s, lo, hi);
    if m.NegInf? {
      ScaleZero(0.0, size);
    } else {
      ShiftSum(exp, s, m.value, reference, lo, hi);
      ShiftAcc(exp, s, v, size, m.value, reference, lo, hi);
    }
  }

  lemma {:induction false} MaxScoreSplit(s: seq<real>, lo: nat, mid: nat, hi: nat)
    requires lo <= mid <= hi <= |s|
    ensures MaxScore(s, lo, hi) == MaxBound(MaxScore(s, lo, mid), MaxScore(s, mid, hi))
  {
    if mid < hi { MaxScoreSplit(s, lo, mid, hi - 1); }
  }

  lemma {:induction false} SumSplit(exp: real -> real, s: seq<real>, m: real, lo: nat, mid: nat, hi: nat)
    requires lo <= mid <= hi <= |s|
    ensures SumExp(exp, s, m, lo, hi) == SumExp(exp, s, m, lo, mid) + SumExp(exp, s, m, mid, hi)
  {
    if mid < hi { SumSplit(exp, s, m, lo, mid, hi - 1); }
  }

  lemma AddVectors(a: real, x: Vec, y: Vec, z: Vec)
    requires |x| == |y| == |z|
    ensures Axpy(a, x, Axpy(1.0, y, z)) == Axpy(1.0, Axpy(a, x, y), z)
  {}

  lemma {:induction false} AccSplit(exp: real -> real, s: seq<real>, v: seq<Vec>, size: nat, m: real, lo: nat,
                                    mid: nat, hi: nat)
    requires lo <= mid <= hi <= |s| == |v| && Sized(v, size)
    ensures AccExp(exp, s, v, size, m, lo, hi)
         == Axpy(1.0, AccExp(exp, s, v, size, m, mid, hi), AccExp(exp, s, v, size, m, lo, mid))
  {
    if mid < hi {
      AccSplit(exp, s, v, size, m, lo, mid, hi - 1);
      AddVectors(exp(s[hi - 1] - m), v[hi - 1], AccExp(exp, s, v, size, m, mid, hi - 1),
                 AccExp(exp, s, v, size, m, lo, mid));
    }
  }

  lemma BlendIsSum(alpha: real, x: Vec, beta: real, y: Vec)
    requires |x| == |y|
    ensures Blend(alpha, x, beta, y) == Axpy(1.0, Scale(beta, y), Scale(alpha, x))
  {}

  /** Merging the summaries of adjacent ranges gives the summary of their union. */
  lemma MergeSummaries(exp: real -> real, s: seq<real>, v: seq<Vec>, size: nat, lo: nat, mid: nat, hi: nat)
    requires Exponential(exp) && lo <= mid <= hi <= |s| == |v| && Sized(v, size)
    ensures Merge(exp, Summary(exp, s, v, size, lo, mid), Summary(exp, s, v, size, mid, hi))
         == Summary(exp, s, v, size, lo, hi)
  {
    hide Exponential, Scale, Axpy, MaxScore, Fade, Blend, SumExp, AccExp;
    var a, b := Summary(exp, s, v, size, lo, mid), Summary(exp, s, v, size, mid, hi);
    MaxScoreSplit(s, lo, mid, hi);
    var m := MaxScore(s, lo, hi);
    if m.Fin? {
      SummaryAt(exp, s, v, size, lo, mid, m.value);
      SummaryAt(exp, s, v, size, mid, hi, m.value);
      SumSplit(exp, s, m.value, lo, mid, hi);
      AccSplit(exp, s, v, size, m.value, lo, mid, hi);
      BlendIsSum(Fade(exp, a.max, m.value), a.acc, Fade(exp, b.max, m.value), b.acc);
    }
  }

  lemma AxpyOne(x: Vec)
    ensures Axpy(1.0, x, Zero(|x|)) == x
  {}

  lemma SummaryOne(exp: real -> real, s: seq<real>, v: seq<Vec>, size: nat, i: nat)
    requires Exponential(exp) && i < |s| == |v| && Sized(v, size)
    ensures |v[i]| == size
    ensures Summary(exp, s, v, size, i, i + 1) == Partial(Fin(s[i]), 1.0, v[i])
  {
    hide Exponential, Axpy;
    assert MaxScore(s, i, i) == NegInf && MaxScore(s, i, i + 1) == Fin(s[i]);
    ExpZero(exp, s[i] - s[i]);
    assert SumExp(exp, s, s[i], i, i) == 0.0;
    assert AccExp(exp, s, v, size, s[i], i, i) == Zero(size);
    AxpyOne(v[i]);
  }

  lemma MergeParts(exp: real -> real, a: Partial, b: Partial, m: real, alpha: real, beta: real)
    requires |a.acc| == |b.acc| && MaxBound(a.max, b.max) == Fin(m)
    requires alpha == Fade(exp, a.max, m) && beta == Fade(exp, b.max, m)
    ensures Merge(exp, a, b) == Partial(Fin(m), a.sum * alpha + b.sum * beta, Blend(alpha, a.acc, beta, b.acc))
  {
    hide Blend, Fade;
  }

  /** The branchy update merges in a single position. */
  lemma PushIsMerge(exp: real -> real, p: Partial, score: real, value: Vec)
    requires Exponential(exp) && |p.acc| == |value|
    ensures Push(exp, p, score, value) == Merge(exp, p, Partial(Fin(score), 1.0, value))
  {
    hide Exponential, Blend, Merge, Fade;
    var b := Partial(Fin(score), 1.0, value);
    FadeAt(exp, score, score);
    ExpZero(exp, score - score);
    if Above(score, p.max) {
      MergeParts(exp, p, b, score, Fade(exp, p.max, score), 1.0);
    } else {
      FadeAt(exp, p.max.value, p.max.value);
      ExpZero(exp, p.max.value - p.max.value);
      FadeAt(exp, score, p.max.value);
      MergeParts(exp, p, b, p.max.value, 1.0, exp(score - p.max.value));
    }
  }

  /** The branchless update is the branchy one. */
  lemma BranchlessIsPush(exp: real -> real, p: Partial, score: real, value: Vec)
    requires Exponential(exp) && |p.acc| == |value|
    ensures PushBranchless(exp, p, score, value) == Push(exp, p, score, value)
  {
    hide Exponential, Blend, Fade;
    if Above(score, p.max) {
      ExpZero(exp, score - score);
    } else {
      FadeAt(exp, p.max.value, p.max.value);
      ExpZero(exp, p.max.value - p.max.value);
    }
  }

  /** One more position extends a summary by exactly that position. */
  lemma PushSummary(exp: real -> real, s: seq<real>, v: seq<Vec>, size: nat, lo: nat, hi: nat)
    requires Exponential(exp) && lo <= hi < |s| == |v| && Sized(v, size)
    ensures |v[hi]| == size
    ensures Push(exp, Summary(exp, s, v, size, lo, hi), s[hi], v[hi]) == Summary(exp, s, v, size, lo, hi + 1)
  {
    hide Exponential, Summary, Push, Merge, Axpy;
    PushIsMerge(exp, Summary(exp, s, v, size, lo, hi), s[hi], v[hi]);
    SummaryOne(exp, s, v, size, hi);
    MergeSummaries(exp, s, v, size, lo, hi, hi + 1);
  }
}
