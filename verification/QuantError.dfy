/** How far the quantised inner product is from the exact one. */
module QuantError {
  import opened LinearAlgebra
  import opened WaveDot
  import opened KQuant
  import opened Q8Activation
  import opened QuantDot

  /** How far one restored activation of the group can be off: half a step, plus what rounding the
      step itself to half precision costs. */
  function Slack(half: real -> real, row: seq<Block>, x: Vec, lo: nat): real
    requires Row(row, x) && lo < |x|
  {
    StepOf(row, x, lo) / 2.0 + 127.0 * Abs(InputStep(half, row, x, lo) - StepOf(row, x, lo))
  }

  /** The sum of |slope| * slack. */
  function ErrorFrom(slopes: Vec, slack: real, lo: nat, n: nat): real
    requires lo + n <= |slopes|
  {
    if n == 0 then 0.0 else ErrorFrom(slopes, slack, lo, n - 1) + RealTerm(Abs(slopes[lo + n - 1]), slack)
  }

  function GroupError(half: real -> real, row: seq<Block>, x: Vec, lo: nat): real
    requires Row(row, x) && lo + 32 <= |x|
  {
    ErrorFrom(Slopes(row, x), Slack(half, row, x, lo), lo, 32)
    + RealTerm(Abs(OffsetOf(row, x, lo)), Abs(half(Sum(x, lo, 32)) - Sum(x, lo, 32)))
  }

  function RowError(half: real -> real, row: seq<Block>, x: Vec, n: nat): real
    requires Row(row, x) && 32 * n <= |x|
  {
    if n == 0 then 0.0 else RowError(half, row, x, n - 1) + GroupError(half, row, x, 32 * (n - 1))
  }

  // ----- one element -----

  lemma TwoSteps(x: real, d: real, i: real, q: int)
    requires -127 <= q <= 127 && Abs(x - d * (q as real)) <= d / 2.0
    ensures Abs(x - Stepped(i, q)) <= d / 2.0 + 127.0 * Abs(i - d)
  {
    var e := i - d;
    var r := q as real;
    StepSpread(i, d, r);
    BoundedProduct(e, r);
    hide *;
    SteppedIs(i, q);
    Triangle(x - d * r, e * r, x - Stepped(i, q), d / 2.0, 127.0 * Abs(e));
  }

  lemma StepSpread(i: real, d: real, r: real)
    ensures i * r == d * r + (i - d) * r
  {}

  lemma SteppedIs(i: real, q: int)
    ensures Stepped(i, q) == i * (q as real)
  {}

  lemma NotNegative(s: real, e: real)
    requires s >= 0.0 && e >= 0.0
    ensures s * e >= 0.0
  {}

  lemma SpreadPlus(s: real, b: real, e: real)
    ensures s * (b + e) == s * b + s * e && s * (b - e) == s * b - s * e
  {}

  lemma Negated(s: real, e: real)
    ensures (-s) * e == -(s * e)
  {}

  /** |s e| <= |s| b when |e| <= b. */
  lemma AbsProduct(s: real, e: real, b: real)
    requires Abs(e) <= b
    ensures Abs(s * e) <= Abs(s) * b
  {
    var t := Abs(s);
    NotNegative(t, b + e);
    NotNegative(t, b - e);
    SpreadPlus(t, b, e);
    Negated(s, e);
    AbsIs(s * e, t * b);
  }

  lemma BoundedProduct(e: real, r: real)
    requires -127.0 <= r <= 127.0
    ensures Abs(e * r) <= 127.0 * Abs(e)
  {
    AbsIs(r, 127.0);
    AbsProduct(e, r, 127.0);
  }

  lemma Triangle(a: real, b: real, c: real, p: real, q: real)
    requires c == a - b && Abs(a) <= p && Abs(b) <= q
    ensures Abs(c) <= p + q
  {}

  lemma ElementClose(half: real -> real, row: seq<Block>, x: Vec, lo: nat, o: nat)
    requires Row(row, x) && lo % 32 == 0 && o < 32 && lo + 32 <= |x|
    ensures Abs(x[lo + o] - Restored(half, row, x)[lo + o]) <= Slack(half, row, x, lo)
  {
    hide Row, BlockOf, GroupStart, MaxAbs, StepSize, Quantized, Stepped, Abs;
    GroupInputs(half, row, x, lo, o);
    WholeGroup(row, x, lo);
    var m := MaxAbs(x, lo, 32);
    MaxAbsBounds(x, lo, 32, o);
    QuantizedNear(x[lo + o], m);
    TwoSteps(x[lo + o], StepSize(m), InputStep(half, row, x, lo), Quantized(x[lo + o], StepSize(m)));
  }

  lemma GroupInputs(half: real -> real, row: seq<Block>, x: Vec, lo: nat, o: nat)
    requires Row(row, x) && lo % 32 == 0 && o < 32 && lo + o < |x|
    ensures StepOf(row, x, lo + o) == StepOf(row, x, lo)
    ensures InputStep(half, row, x, lo + o) == InputStep(half, row, x, lo)
  {
    hide BlockOf, GroupStart, OffsetOf, MaxAbs, StepSize, IntScaleAt, Within;
    SameGroup(row, x, lo, 0);
    SameGroup(row, x, lo, o);
  }

  // ----- one group -----

  lemma TermClose(s: real, u: real, v: real, slack: real)
    requires Abs(u - v) <= slack
    ensures Abs(RealTerm(s, u) - RealTerm(s, v)) <= RealTerm(Abs(s), slack)
  {
    hide Abs;
    SpreadPlus(s, u, v);
    AbsProduct(s, u - v, slack);
  }

  lemma AddClose(a: real, b: real, p: real, c: real, d: real, q: real)
    requires Abs(a - b) <= p && Abs(c - d) <= q
    ensures Abs((a + c) - (b + d)) <= p + q
  {}

  lemma {:induction false} SlopesClose(half: real -> real, row: seq<Block>, x: Vec, lo: nat, n: nat)
    requires Row(row, x) && lo % 32 == 0 && n <= 32 && lo + 32 <= |x|
    ensures Abs(DotFrom(Slopes(row, x), x, lo, n) - DotFrom(Slopes(row, x), Restored(half, row, x), lo, n))
         <= ErrorFrom(Slopes(row, x), Slack(half, row, x, lo), lo, n)
  {
    hide *;
    var s, r, slack := Slopes(row, x), Restored(half, row, x), Slack(half, row, x, lo);
    if n == 0 {
      DotFromNothing(s, x, lo);
      DotFromNothing(s, r, lo);
      NoError(s, slack, lo);
      AbsIs(0.0, 0.0);
    } else {
      var e := lo + n - 1;
      SlopesClose(half, row, x, lo, n - 1);
      ElementClose(half, row, x, lo, n - 1);
      TermClose(s[e], x[e], r[e], slack);
      DotFromNext(s, x, lo, n, s[e], x[e]);
      DotFromNext(s, r, lo, n, s[e], r[e]);
      ErrorFromNext(s, slack, lo, n);
      AddClose(DotFrom(s, x, lo, n - 1), DotFrom(s, r, lo, n - 1), ErrorFrom(s, slack, lo, n - 1),
               RealTerm(s[e], x[e]), RealTerm(s[e], r[e]), RealTerm(Abs(s[e]), slack));
    }
  }

  lemma SplitTerm(s: real, o: real, x: real, sum: real, w: real)
    requires w == s - o
    ensures RealTerm(w, x) == RealTerm(s, x) - RealTerm(o, x)
    ensures RealTerm(o, sum + x) == RealTerm(o, sum) + RealTerm(o, x)
  {
    assert o * (sum + x) == o * sum + o * x;
    assert (s - o) * x == s * x - o * x;
  }

  lemma WeightAt(row: seq<Block>, x: Vec, lo: nat, o: nat)
    requires Row(row, x) && lo % 32 == 0 && o < 32 && lo + 32 <= |x|
    ensures Weights(row, x)[lo + o] == Slopes(row, x)[lo + o] - OffsetOf(row, x, lo)
  {
    SameGroup(row, x, lo, o);
    hide BlockOf, Within, OffsetAt, IntScaleAt, QuantAt, Scaled, Weight;
    WeightSplits(BlockOf(row, x, lo + o), Within(lo + o));
  }

  lemma ZeroTerm(o: real)
    ensures RealTerm(o, 0.0) == 0.0
  {}

  /** Within a group the exact product is the slopes' product less the lowered sum. */
  lemma {:induction false} WeightsSplit(row: seq<Block>, x: Vec, lo: nat, n: nat)
    requires Row(row, x) && lo % 32 == 0 && n <= 32 && lo + 32 <= |x|
    ensures DotFrom(Weights(row, x), x, lo, n)
         == DotFrom(Slopes(row, x), x, lo, n) - RealTerm(OffsetOf(row, x, lo), Sum(x, lo, n))
  {
    hide Row, Slopes, Weights, DotFrom, RealTerm, OffsetOf;
    var w, s, o := Weights(row, x), Slopes(row, x), OffsetOf(row, x, lo);
    if n == 0 {
      DotFromNothing(w, x, lo);
      DotFromNothing(s, x, lo);
      ZeroTerm(o);
    } else {
      var e := lo + n - 1;
      WeightsSplit(row, x, lo, n - 1);
      WeightAt(row, x, lo, n - 1);
      DotFromNext(w, x, lo, n, w[e], x[e]);
      DotFromNext(s, x, lo, n, s[e], x[e]);
      SplitTerm(s[e], o, x[e], Sum(x, lo, n - 1), w[e]);
    }
  }

  lemma GroupClose(half: real -> real, row: seq<Block>, x: Vec, lo: nat)
    requires Row(row, x) && lo % 32 == 0 && lo + 32 <= |x|
    ensures Abs(DotFrom(Weights(row, x), x, lo, 32) - GroupTerm(half, row, x, lo)) <= GroupError(half, row, x, lo)
  {
    hide Row, Slopes, Weights, Restored, Slack, DotFrom, RealTerm, OffsetOf, ErrorFrom, Sum;
    var s, o, sum := Slopes(row, x), OffsetOf(row, x, lo), Sum(x, lo, 32);
    WeightsSplit(row, x, lo, 32);
    SlopesClose(half, row, x, lo, 32);
    TermClose(o, half(sum), sum, Abs(half(sum) - sum));
    AddClose(DotFrom(s, x, lo, 32), DotFrom(s, Restored(half, row, x), lo, 32),
             ErrorFrom(s, Slack(half, row, x, lo), lo, 32),
             RealTerm(o, half(sum)), RealTerm(o, sum), RealTerm(Abs(o), Abs(half(sum) - sum)));
  }

  // ----- the row -----

  lemma {:induction false} RowClose(half: real -> real, row: seq<Block>, x: Vec, n: nat)
    requires Row(row, x) && 32 * n <= |x|
    ensures Abs(Dot(Weights(row, x), x, 32 * n) - RowTerm(half, row, x, n)) <= RowError(half, row, x, n)
  {
    hide Row, Weights, Dot, DotFrom, GroupTerm, GroupError;
    var w := Weights(row, x);
    if n == 0 {
      DotEmpty(w, x);
    } else {
      var lo := 32 * (n - 1);
      RowClose(half, row, x, n - 1);
      DotExtends(w, x, lo, 32);
      GroupClose(half, row, x, lo);
      AddClose(Dot(w, x, lo), RowTerm(half, row, x, n - 1), RowError(half, row, x, n - 1),
               DotFrom(w, x, lo, 32), GroupTerm(half, row, x, lo), GroupError(half, row, x, lo));
    }
  }

  /** The quantised product is within the error bound of the exact one, for any rounding of the
      half-precision fields and any number of columns. */
  lemma ExpectedValueIsClose(half: real -> real, row: seq<Block>, x: Vec)
    requires Row(row, x)
    ensures Abs(Dot(Weights(row, x), x, |x|) - RowTerm(half, row, x, |x| / 32)) <= RowError(half, row, x, |x| / 32)
  {
    hide *;
    RowLength(row, x);
    RowClose(half, row, x, |x| / 32);
  }

  // ----- half precision taken as exact, and Q6_K -----

  /** The sum of |slope_e| * d / 2, d being the step of e's group. */
  function HalfSteps(row: seq<Block>, x: Vec, n: nat): real
    requires Row(row, x) && n <= |x|
  {
    if n == 0 then 0.0
    else HalfSteps(row, x, n - 1) + RealTerm(Abs(Slopes(row, x)[n - 1]), StepOf(row, x, n - 1) / 2.0)
  }

  /** Rounding to half precision costs nothing here: it is exact, or the row is all Q6_K. */
  ghost predicate NoHalfLoss(half: real -> real, row: seq<Block>) {
    (forall y {:trigger half(y)} :: half(y) == y) || forall b :: 0 <= b < |row| ==> row[b].Q6K?
  }

  lemma NoLossSlack(half: real -> real, row: seq<Block>, x: Vec, lo: nat)
    requires Row(row, x) && lo < |x| && NoHalfLoss(half, row)
    ensures Slack(half, row, x, lo) == StepOf(row, x, lo) / 2.0
    ensures forall sum {:trigger half(sum)} :: RealTerm(Abs(OffsetOf(row, x, lo)), Abs(half(sum) - sum)) == 0.0
  {
    hide StepOf;
  }

  lemma HalfStepsNext(row: seq<Block>, x: Vec, n: nat)
    requires Row(row, x) && 0 < n <= |x|
    ensures HalfSteps(row, x, n)
         == HalfSteps(row, x, n - 1) + RealTerm(Abs(Slopes(row, x)[n - 1]), StepOf(row, x, n - 1) / 2.0)
  {
    hide Row, Slopes, StepOf, RealTerm, Abs;
  }

  lemma ErrorFromNext(slopes: Vec, slack: real, lo: nat, n: nat)
    requires 0 < n && lo + n <= |slopes|
    ensures ErrorFrom(slopes, slack, lo, n)
         == ErrorFrom(slopes, slack, lo, n - 1) + RealTerm(Abs(slopes[lo + n - 1]), slack)
  {
    hide RealTerm, Abs;
  }

  lemma NoError(slopes: Vec, slack: real, lo: nat)
    requires lo <= |slopes|
    ensures ErrorFrom(slopes, slack, lo, 0) == 0.0
  {}

  lemma NoRowError(half: real -> real, row: seq<Block>, x: Vec)
    requires Row(row, x)
    ensures RowError(half, row, x, 0) == 0.0 == HalfSteps(row, x, 0)
  {}

  lemma {:induction false} ErrorIsHalfSteps(half: real -> real, row: seq<Block>, x: Vec, lo: nat, n: nat)
    requires Row(row, x) && lo % 32 == 0 && n <= 32 && lo + 32 <= |x| && NoHalfLoss(half, row)
    ensures HalfSteps(row, x, lo + n)
         == HalfSteps(row, x, lo) + ErrorFrom(Slopes(row, x), Slack(half, row, x, lo), lo, n)
  {
    hide *;
    var s, slack := Slopes(row, x), Slack(half, row, x, lo);
    if n == 0 {
      NoError(s, slack, lo);
    } else {
      ErrorIsHalfSteps(half, row, x, lo, n - 1);
      GroupInputs(half, row, x, lo, n - 1);
      NoLossSlack(half, row, x, lo);
      HalfStepsNext(row, x, lo + n);
      ErrorFromNext(s, slack, lo, n);
    }
  }

  lemma {:induction false} RowErrorIsHalfSteps(half: real -> real, row: seq<Block>, x: Vec, n: nat)
    requires Row(row, x) && 32 * n <= |x| && NoHalfLoss(half, row)
    ensures RowError(half, row, x, n) == HalfSteps(row, x, 32 * n)
  {
    hide *;
    if n == 0 {
      NoRowError(half, row, x);
    } else {
      var lo := 32 * (n - 1);
      RowErrorIsHalfSteps(half, row, x, n - 1);
      RowErrorNext(half, row, x, n, lo);
      NoLossSlack(half, row, x, lo);
      ErrorIsHalfSteps(half, row, x, lo, 32);
    }
  }

  lemma RowErrorNext(half: real -> real, row: seq<Block>, x: Vec, n: nat, lo: nat)
    requires Row(row, x) && 0 < n && 32 * n <= |x| && lo == 32 * (n - 1)
    ensures RowError(half, row, x, n)
         == RowError(half, row, x, n - 1) + (ErrorFrom(Slopes(row, x), Slack(half, row, x, lo), lo, 32)
      + RealTerm(Abs(OffsetOf(row, x, lo)), Abs(half(Sum(x, lo, 32)) - Sum(x, lo, 32))))
  {
    hide Row, Slopes, Slack, ErrorFrom, RealTerm, Abs, OffsetOf, Sum;
  }

  /** Without loss in half precision the error is at most the sum of |d * scale * q| * d_group / 2. */
  lemma ErrorBound(half: real -> real, row: seq<Block>, x: Vec)
    requires Row(row, x) && NoHalfLoss(half, row)
    ensures Abs(Dot(Weights(row, x), x, |x|) - RowTerm(half, row, x, |x| / 32)) <= HalfSteps(row, x, |x|)
  {
    hide *;
    RowLength(row, x);
    ExpectedValueIsClose(half, row, x);
    RowErrorIsHalfSteps(half, row, x, |x| / 32);
  }

  /** In a Q6_K row the slopes are the weights. */
  lemma Q6SlopesAreWeights(row: seq<Block>, x: Vec)
    requires Row(row, x) && forall b :: 0 <= b < |row| ==> row[b].Q6K?
    ensures Slopes(row, x) == Weights(row, x)
  {
    hide Scaled, IntScaleAt, QuantAt;
  }

  // ----- column by column -----

  /** The minimum of each element's group. */
  function Offsets(row: seq<Block>, x: Vec): (o: Vec)
    requires Row(row, x)
    ensures |o| == |x| && forall e :: 0 <= e < |x| ==> o[e] == OffsetOf(row, x, e)
  {
    seq(|x|, e requires 0 <= e < |x| => OffsetOf(row, x, e))
  }

  lemma {:induction false} OffsetsSum(row: seq<Block>, x: Vec, lo: nat, n: nat)
    requires Row(row, x) && lo % 32 == 0 && n <= 32 && lo + 32 <= |x|
    ensures DotFrom(Offsets(row, x), x, lo, n) == RealTerm(OffsetOf(row, x, lo), Sum(x, lo, n))
  {
    hide Row, DotFrom, RealTerm, OffsetOf;
    var o := OffsetOf(row, x, lo);
    if n == 0 {
      DotFromNothing(Offsets(row, x), x, lo);
      ZeroTerm(o);
    } else {
      var e := lo + n - 1;
      OffsetsSum(row, x, lo, n - 1);
      SameGroup(row, x, lo, n - 1);
      DotFromNext(Offsets(row, x), x, lo, n, o, x[e]);
      SplitTerm(0.0, o, x[e], Sum(x, lo, n - 1), 0.0 - o);
    }
  }

  /** The lowered sums of groups [0, n). */
  function LoweredSums(half: real -> real, row: seq<Block>, x: Vec, n: nat): real
    requires Row(row, x) && 32 * n <= |x|
  {
    if n == 0 then 0.0
    else
      LoweredSums(half, row, x, n - 1) + RealTerm(OffsetOf(row, x, 32 * (n - 1)), half(Sum(x, 32 * (n - 1), 32)))
  }

  /** The blocked, group-factored sum is the column-by-column one: slopes on the restored
      activations, less one lowered sum a group. */
  lemma {:induction false} BlockedIsColumnwise(half: real -> real, row: seq<Block>, x: Vec, n: nat)
    requires Row(row, x) && 32 * n <= |x|
    ensures RowTerm(half, row, x, n)
         == Dot(Slopes(row, x), Restored(half, row, x), 32 * n) - LoweredSums(half, row, x, n)
  {
    hide Row, Slopes, Restored, Dot, DotFrom, RealTerm, OffsetOf, Sum;
    var s, r := Slopes(row, x), Restored(half, row, x);
    if n == 0 {
      DotEmpty(s, r);
    } else {
      var lo := 32 * (n - 1);
      BlockedIsColumnwise(half, row, x, n - 1);
      DotExtends(s, r, lo, 32);
    }
  }

  /** Without loss in half precision the lowered sums are the minimums on the raw activations. */
  lemma {:induction false} LoweredAreOffsets(half: real -> real, row: seq<Block>, x: Vec, n: nat)
    requires Row(row, x) && 32 * n <= |x| && forall y {:trigger half(y)} :: half(y) == y
    ensures LoweredSums(half, row, x, n) == Dot(Offsets(row, x), x, 32 * n)
  {
    hide Row, Offsets, Dot, DotFrom, RealTerm, OffsetOf, Sum;
    var o := Offsets(row, x);
    if n == 0 {
      DotEmpty(o, x);
    } else {
      var lo := 32 * (n - 1);
      LoweredAreOffsets(half, row, x, n - 1);
      DotExtends(o, x, lo, 32);
      OffsetsSum(row, x, lo, 32);
    }
  }
}
