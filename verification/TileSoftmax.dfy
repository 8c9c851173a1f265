/** Online softmax by tiles: a tile's own maximum first, then one rescaling for the whole tile. */
module TileSoftmax {
  import opened LinearAlgebra
  import opened ExpLog
  import opened Softmax
  import opened OnlineSoftmax
  import opened Butterfly
  import opened WaveDot
  import opened Wave64

  function Min(a: nat, b: nat): nat { if a < b then a else b }

  // ----- a tile of scores, -INFINITY where there is no visible position -----

  /** scores[j] belongs to position at + j; positions from `end` on are masked. */
  ghost predicate TileOf(scores: seq<Bound>, s: seq<real>, at: nat, end: nat) {
    end <= |s|
    && forall j {:trigger scores[j]} :: 0 <= j < |scores| ==>
      scores[j] == if at + j < end then Fin(s[at + j]) else NegInf
  }

  /** The tile's maximum is the maximum over its visible positions. */
  lemma {:induction false} TileMaxIsMax(scores: seq<Bound>, s: seq<real>, at: nat, end: nat, n: nat)
    requires TileOf(scores, s, at, end) && n <= |scores| && at <= end
    ensures Fold(MAX, NegInf, scores, n) == MaxScore(s, at, Min(at + n, end))
  {
    if n != 0 {
      TileMaxIsMax(scores, s, at, end, n - 1);
      assert scores[n - 1] == if at + (n - 1) < end then Fin(s[at + (n - 1)]) else NegInf;
      assert Fold(MAX, NegInf, scores, n) == MaxBound(Fold(MAX, NegInf, scores, n - 1), scores[n - 1]);
    }
  }

  /** weights[j] is exp(score - reference), zero where masked. */
  ghost predicate WeightsOf(exp: real -> real, weights: seq<real>, s: seq<real>, reference: real, at: nat, end: nat) {
    end <= |s|
    && forall j {:trigger weights[j]} :: 0 <= j < |weights| ==>
      weights[j] == if at + j < end then exp(s[at + j] - reference) else 0.0
  }

  lemma {:induction false} TileSumIsSum(exp: real -> real, weights: seq<real>, s: seq<real>, reference: real, at: nat,
                                        end: nat, n: nat)
    requires WeightsOf(exp, weights, s, reference, at, end) && n <= |weights| && at <= end
    ensures Fold(PLUS, 0.0, weights, n) == SumExp(exp, s, reference, at, Min(at + n, end))
  {
    if n != 0 {
      TileSumIsSum(exp, weights, s, reference, at, end, n - 1);
      assert weights[n - 1] == if at + (n - 1) < end then exp(s[at + (n - 1)] - reference) else 0.0;
    }
  }

  // ----- accumulating a tile of values on a rescaled accumulator -----

  /** One more weighted value, the weight carrying the tile's own rescaling factor. */
  lemma TileAccStep(beta: real, p: real, w: real, x: Vec, a: Vec, b: Vec)
    requires |x| == |a| == |b| && w == p * beta
    ensures Axpy(w, x, Axpy(beta, a, b)) == Axpy(beta, Axpy(p, x, a), b)
  {
    forall i | 0 <= i < |x| ensures Axpy(w, x, Axpy(beta, a, b))[i] == Axpy(beta, Axpy(p, x, a), b)[i] {
      hide *;
      AxpyAt(beta, a, b, i);
      AxpyAt(w, x, Axpy(beta, a, b), i);
      AxpyAt(p, x, a, i);
      AxpyAt(beta, Axpy(p, x, a), b, i);
      TileAccEntry(beta, p, w, x[i], a[i], b[i]);
    }
  }

  lemma TileAccEntry(beta: real, p: real, w: real, x: real, a: real, b: real)
    requires w == p * beta
    ensures (b + beta * a) + w * x == b + beta * (a + p * x)
  {
    assert (p * beta) * x == beta * (p * x);
  }

  lemma AxpyZero(beta: real, b: Vec)
    ensures Axpy(beta, Zero(|b|), b) == b
  {
    forall i | 0 <= i < |b| ensures Axpy(beta, Zero(|b|), b)[i] == b[i] { AxpyAt(beta, Zero(|b|), b, i); }
  }

  /** A tile reduced at its own maximum and then merged. */
  lemma TileMerges(exp: real -> real, s: seq<real>, v: seq<Vec>, size: nat, lo: nat, at: nat, end: nat, p: Partial,
                   m: real, tileMax: real)
    requires Exponential(exp) && |s| == |v| && Sized(v, size) && lo <= at < end <= |s|
    requires p == Summary(exp, s, v, size, lo, at)
    requires MaxScore(s, at, end) == Fin(tileMax) && MaxBound(p.max, Fin(tileMax)) == Fin(m)
    ensures Partial(Fin(m), p.sum * Fade(exp, p.max, m) + SumExp(exp, s, tileMax, at, end) * exp(tileMax - m),
                    Axpy(exp(tileMax - m), AccExp(exp, s, v, size, tileMax, at, end),
                         Scale(Fade(exp, p.max, m), p.acc)))
         == Summary(exp, s, v, size, lo, end)
  {
    hide Exponential, MaxScore, SumExp, AccExp, Scale, Axpy, Sized, Fade;
    MergeSummaries(exp, s, v, size, lo, at, end);
    FadeAt(exp, tileMax, m);
    MergeParts(exp, p, Summary(exp, s, v, size, at, end), m, Fade(exp, p.max, m), exp(tileMax - m));
  }

  /** A tile reduced directly at the new maximum. */
  lemma TileRescales(exp: real -> real, s: seq<real>, v: seq<Vec>, size: nat, lo: nat, at: nat, end: nat, p: Partial,
                     m: real)
    requires Exponential(exp) && |s| == |v| && Sized(v, size) && lo <= at < end <= |s|
    requires p == Summary(exp, s, v, size, lo, at) && MaxBound(p.max, MaxScore(s, at, end)) == Fin(m)
    ensures Partial(Fin(m), p.sum * Fade(exp, p.max, m) + SumExp(exp, s, m, at, end),
                    Axpy(1.0, AccExp(exp, s, v, size, m, at, end), Scale(Fade(exp, p.max, m), p.acc)))
         == Summary(exp, s, v, size, lo, end)
  {
    hide Exponential, MaxScore, SumExp, AccExp, Scale, Axpy, Sized, Fade;
    SummaryAt(exp, s, v, size, lo, at, m);
    SumSplit(exp, s, m, lo, at, end);
    AccSplit(exp, s, v, size, m, lo, at, end);
    MaxScoreSplit(s, lo, at, end);
    SummaryIs(exp, s, v, size, lo, at);
    SummaryIs(exp, s, v, size, lo, end);
  }

}
