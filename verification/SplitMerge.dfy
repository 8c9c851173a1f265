/** What the two stage-2 merges compute from a list of partial results, and why the looping one
    recovers exact attention from any division of the positions. */
module SplitMerge {
  import opened LinearAlgebra
  import opened ExpLog
  import opened Softmax
  import opened OnlineSoftmax
  import opened MergeAlgebra
  import opened Attention

  function MaxOf(parts: seq<Partial>, n: nat): Bound
    requires n <= |parts|
  {
    if n == 0 then NegInf else MaxBound(MaxOf(parts, n - 1), parts[n - 1].max)
  }

  /** The sum of sum_s * exp(max_s - reference). */
  function WeighedSum(exp: real -> real, parts: seq<Partial>, reference: real, n: nat): real
    requires n <= |parts|
  {
    if n == 0 then 0.0
    else WeighedSum(exp, parts, reference, n - 1) + parts[n - 1].sum * Fade(exp, parts[n - 1].max, reference)
  }

  ghost predicate PartsSized(parts: seq<Partial>, size: nat) {
    forall s :: 0 <= s < |parts| ==> |parts[s].acc| == size
  }

  /** The sum of acc_s * exp(max_s - reference). */
  function WeighedAcc(exp: real -> real, parts: seq<Partial>, reference: real, size: nat, n: nat): (z: Vec)
    requires n <= |parts| && PartsSized(parts, size)
    ensures |z| == size
  {
    if n == 0 then Zero(size)
    else Axpy(Fade(exp, parts[n - 1].max, reference), parts[n - 1].acc, WeighedAcc(exp, parts, reference, size, n - 1))
  }

  /** Splits that saw no position are skipped. */
  predicate Live(p: Partial) { p.sum > 0.0 && p.max.Fin? }

  function Screened(parts: seq<Partial>, size: nat): (r: seq<Partial>)
    requires PartsSized(parts, size)
    ensures |r| == |parts| && PartsSized(r, size)
    ensures forall s :: 0 <= s < |parts| ==> r[s] == if Live(parts[s]) then parts[s] else Empty(size)
  {
    seq(|parts|, s requires 0 <= s < |parts| => if Live(parts[s]) then parts[s] else Empty(size))
  }

  function Reference(m: Bound): real { if m.Fin? then m.value else 0.0 }

  /** The merge that loops over all splits. */
  function LoopMerge(exp: real -> real, parts: seq<Partial>, size: nat): (z: Vec)
    requires PartsSized(parts, size)
    ensures |z| == size
  {
    var m := Reference(MaxOf(parts, |parts|));
    var kept := Screened(parts, size);
    Normalised(Partial(MaxOf(parts, |parts|), WeighedSum(exp, kept, m, |kept|), WeighedAcc(exp, kept, m, size, |kept|)))
  }

  /** What stage 1 leaves behind: exact emptiness, or a positive sum. */
  ghost predicate AllLive(parts: seq<Partial>, size: nat) {
    forall s :: 0 <= s < |parts| ==> |parts[s].acc| == size && (Live(parts[s]) || parts[s] == Empty(size))
  }

  lemma LiveIsProper(parts: seq<Partial>, size: nat)
    requires AllLive(parts, size)
    ensures AllProper(parts, size) && PartsSized(parts, size) && Screened(parts, size) == parts
  {}

  lemma BlendAsAxpy(alpha: real, x: Vec, beta: real, y: Vec)
    requires |x| == |y|
    ensures Blend(alpha, x, beta, y) == Axpy(beta, y, Scale(alpha, x))
  {}

  /** The n-ary merge, seen from any reference, is the pair of weighed sums. */
  lemma {:induction false} MergeAllAt(exp: real -> real, parts: seq<Partial>, size: nat, reference: real, n: nat)
    requires Exponential(exp) && AllProper(parts, size) && PartsSized(parts, size) && n <= |parts|
    ensures var r := MergeAll(exp, parts[..n], size);
      && Proper(r, size) && r.max == MaxOf(parts, n)
      && r.sum * Fade(exp, r.max, reference) == WeighedSum(exp, parts, reference, n)
      && Scale(Fade(exp, r.max, reference), r.acc) == WeighedAcc(exp, parts, reference, size, n)
  {
    hide Exponential, Merge, Blend, Scale, Axpy, Fade;
    if n == 0 {
      EmptyFade(exp, reference);
      ScaleZero(0.0, size);
    } else {
      MergeAllAt(exp, parts, size, reference, n - 1);
      assert parts[..n][..n - 1] == parts[..n - 1];
      var before := MergeAll(exp, parts[..n - 1], size);
      MergeMax(exp, before, parts[n - 1]);
      MergeAt(exp, before, parts[n - 1], size, reference);
      BlendAsAxpy(Fade(exp, before.max, reference), before.acc, Fade(exp, parts[n - 1].max, reference),
                  parts[n - 1].acc);
    }
  }

  /** The looping stage 2 is the n-ary merge, normalised. */
  lemma LoopMergeIsMergeAll(exp: real -> real, parts: seq<Partial>, size: nat)
    requires Exponential(exp) && AllLive(parts, size)
    ensures PartsSized(parts, size) && AllProper(parts, size)
    ensures LoopMerge(exp, parts, size) == Normalised(MergeAll(exp, parts, size))
  {
    hide Exponential, Scale, Axpy, Live, WeighedSum, WeighedAcc;
    LiveIsProper(parts, size);
    var r := MergeAll(exp, parts, size);
    var m := Reference(r.max);
    assert parts[..|parts|] == parts;
    MergeAllAt(exp, parts, size, m, |parts|);
    if r.max.Fin? {
      FadeAt(exp, m, m);
      ExpZero(exp, m - m);
      ScaleOne(r.acc);
    } else {
      ScaleZero(0.0, size);
    }
  }

  // ----- any division of the positions -----

  ghost predicate Cuts(cuts: seq<nat>, n: nat) {
    && 0 < |cuts| && cuts[|cuts| - 1] <= n
    && forall i, j :: 0 <= i <= j < |cuts| ==> cuts[i] <= cuts[j]
  }

  /** The exact state of each piece. */
  function Pieces(exp: real -> real, s: seq<real>, v: seq<Vec>, size: nat, cuts: seq<nat>): (p: seq<Partial>)
    requires |s| == |v| && Sized(v, size) && Cuts(cuts, |s|)
    ensures |p| == |cuts| - 1 && PartsSized(p, size)
    ensures forall i :: 0 <= i < |p| ==> p[i] == Summary(exp, s, v, size, cuts[i], cuts[i + 1])
  {
    seq(|cuts| - 1, i requires 0 <= i < |cuts| - 1 => Summary(exp, s, v, size, cuts[i], cuts[i + 1]))
  }

  lemma PiecesAreLive(exp: real -> real, s: seq<real>, v: seq<Vec>, size: nat, cuts: seq<nat>)
    requires Exponential(exp) && |s| == |v| && Sized(v, size) && Cuts(cuts, |s|)
    ensures AllLive(Pieces(exp, s, v, size, cuts), size)
  {
    var p := Pieces(exp, s, v, size, cuts);
    forall i | 0 <= i < |p| ensures |p[i].acc| == size && (Live(p[i]) || p[i] == Empty(size)) {
      hide Exponential;
      SummaryIsLive(exp, s, v, size, cuts[i], cuts[i + 1]);
    }
  }

  lemma SummaryIsLive(exp: real -> real, s: seq<real>, v: seq<Vec>, size: nat, lo: nat, hi: nat)
    requires Exponential(exp) && |s| == |v| && Sized(v, size) && lo <= hi <= |s|
    ensures Live(Summary(exp, s, v, size, lo, hi)) || Summary(exp, s, v, size, lo, hi) == Empty(size)
  {
    if lo < hi { SumAtLeastOne(exp, s, v, size, lo, hi); }
  }

  /** Merging consecutive pieces gives the state of the whole range. */
  lemma {:induction false} MergePieces(exp: real -> real, s: seq<real>, v: seq<Vec>, size: nat, cuts: seq<nat>)
    requires Exponential(exp) && |s| == |v| && Sized(v, size) && Cuts(cuts, |s|)
    ensures MergeAll(exp, Pieces(exp, s, v, size, cuts), size) == Summary(exp, s, v, size, cuts[0], cuts[|cuts| - 1])
  {
    hide Exponential, Merge, Summary;
    var k := |cuts| - 1;
    if k == 0 {
      EmptySummary(exp, s, v, size, cuts[0]);
    } else {
      var front := cuts[..k];
      assert Pieces(exp, s, v, size, cuts)[..k - 1] == Pieces(exp, s, v, size, front);
      MergePieces(exp, s, v, size, front);
      MergeSummaries(exp, s, v, size, cuts[0], cuts[k - 1], cuts[k]);
    }
  }

  lemma EmptySummary(exp: real -> real, s: seq<real>, v: seq<Vec>, size: nat, lo: nat)
    requires |s| == |v| && Sized(v, size) && lo <= |s|
    ensures Summary(exp, s, v, size, lo, lo) == Empty(size)
  {}

  /** Seen from any reference, pieces weigh as much as the positions they cover. */
  lemma PiecesWeigh(exp: real -> real, s: seq<real>, v: seq<Vec>, size: nat, cuts: seq<nat>, reference: real, n: nat)
    requires Exponential(exp) && |s| == |v| && Sized(v, size) && Cuts(cuts, |s|) && n < |cuts|
    ensures var parts := Pieces(exp, s, v, size, cuts);
      && MaxOf(parts, n) == MaxScore(s, cuts[0], cuts[n])
      && WeighedSum(exp, parts, reference, n) == SumExp(exp, s, reference, cuts[0], cuts[n])
      && WeighedAcc(exp, parts, reference, size, n) == AccExp(exp, s, v, size, reference, cuts[0], cuts[n])
  {
    hide *;
    CutsPrefix(cuts, |s|, n);
    FirstPieces(exp, s, v, size, cuts, n);
    MergeAllAt(exp, Pieces(exp, s, v, size, cuts), size, reference, n);
    SummaryAt(exp, s, v, size, cuts[0], cuts[n], reference);
    SummaryIs(exp, s, v, size, cuts[0], cuts[n]);
  }

  lemma CutsPrefix(cuts: seq<nat>, length: nat, n: nat)
    requires Cuts(cuts, length) && n < |cuts|
    ensures Cuts(cuts[..n + 1], length) && cuts[0] <= cuts[n] <= length
  {}

  lemma FirstPieces(exp: real -> real, s: seq<real>, v: seq<Vec>, size: nat, cuts: seq<nat>, n: nat)
    requires Exponential(exp) && |s| == |v| && Sized(v, size) && Cuts(cuts, |s|) && n < |cuts|
    ensures var parts := Pieces(exp, s, v, size, cuts);
      && AllProper(parts, size) && PartsSized(parts, size) && PartsSized(parts[..n], size) && cuts[0] <= cuts[n] <= |s|
      && MergeAll(exp, parts[..n], size) == Summary(exp, s, v, size, cuts[0], cuts[n])
  {
    var parts, front := Pieces(exp, s, v, size, cuts), cuts[..n + 1];
    assert parts[..n] == Pieces(exp, s, v, size, front) by { PiecesPrefix(exp, s, v, size, cuts, n); }
    hide *;
    CutsPrefix(cuts, |s|, n);
    PiecesAreLive(exp, s, v, size, cuts);
    LiveIsProper(parts, size);
    MergePieces(exp, s, v, size, front);
  }

  lemma PiecesPrefix(exp: real -> real, s: seq<real>, v: seq<Vec>, size: nat, cuts: seq<nat>, n: nat)
    requires |s| == |v| && Sized(v, size) && Cuts(cuts, |s|) && n < |cuts|
    ensures Cuts(cuts[..n + 1], |s|)
    ensures Pieces(exp, s, v, size, cuts)[..n] == Pieces(exp, s, v, size, cuts[..n + 1])
  {
    hide Summary, Sized;
  }

  /** Any division of the positions, merged in any order, gives the exact mean. */
  lemma AnyDivisionAnyOrder(exp: real -> real, s: seq<real>, v: seq<Vec>, size: nat, cuts: seq<nat>,
                            parts: seq<Partial>)
    requires Exponential(exp) && |s| == |v| && 0 < |s| && Sized(v, size)
    requires Cuts(cuts, |s|) && cuts[0] == 0 && cuts[|cuts| - 1] == |s|
    requires multiset(parts) == multiset(Pieces(exp, s, v, size, cuts))
    ensures PartsSized(parts, size) && LoopMerge(exp, parts, size) == Mean(exp, s, v, size, |s|)
  {
    hide Exponential, Merge, Summary, Live, LoopMerge, Mean, Normalised, Sized, Cuts;
    var pieces := Pieces(exp, s, v, size, cuts);
    PiecesAreLive(exp, s, v, size, cuts);
    Reordered(pieces, parts, size);
    LoopMergeIsMergeAll(exp, pieces, size);
    LoopMergeIsMergeAll(exp, parts, size);
    MergeOrderIrrelevant(exp, parts, pieces, size);
    MergePieces(exp, s, v, size, cuts);
    NormalisedIsMean(exp, s, v, size, |s|);
  }

  lemma Reordered(pieces: seq<Partial>, parts: seq<Partial>, size: nat)
    requires multiset(parts) == multiset(pieces) && AllLive(pieces, size)
    ensures AllLive(parts, size)
  {
    hide Live;
    forall i | 0 <= i < |parts| ensures |parts[i].acc| == size && (Live(parts[i]) || parts[i] == Empty(size)) {
      assert parts[i] in multiset(parts);
      assert parts[i] in multiset(pieces);
      var j :| 0 <= j < |pieces| && pieces[j] == parts[i];
    }
  }
}
