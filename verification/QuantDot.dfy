/** The quantised inner product of one weight row with one token's activations, what it equals and
    how far it is from the exact product. Rounding to half precision is a parameter. */
module QuantDot {
  import opened LinearAlgebra
  import opened WaveDot
  import opened KQuant
  import opened Q8Activation

  // ----- a weight, taken apart -----

  /** The integer scale of element `e`. */
  function IntScaleAt(b: Block, e: nat): int
    requires b.Valid() && e < 256
  {
    if b.Q6K? then b.signedScales[e / 16] else MxScaleMin(b.scales, e / 32).scale as int
  }

  /** The integer weight of element `e`. */
  function QuantAt(b: Block, e: nat): int
    requires b.Valid() && e < 256
  {
    if b.Q6K? then MxQ6Quant(b.low, b.high, e) else MxAffineQuant(b, e) as int
  }

  /** The part that multiplies the activation sum; Q6_K has none. */
  function OffsetAt(b: Block, e: nat): real
    requires b.Valid() && e < 256
  {
    if b.Q6K? then 0.0 else Lowered(b.dmin, MxScaleMin(b.scales, e / 32).minimum as int)
  }

  function Stepped(step: real, quantized: int): real { step * (quantized as real) }

  /** The value of one weight. */
  function Weight(b: Block, e: nat): real
    requires b.Valid() && e < 256
  {
    if b.Q6K? then Scaled(b.d, IntScaleAt(b, e), QuantAt(b, e))
    else
      var sm := MxScaleMin(b.scales, e / 32);
      Dequantized(b.d, b.dmin, sm.scale, sm.minimum, MxAffineQuant(b, e))
  }

  /** For Q4_K this is the other file's decoder. */
  lemma WeightIsQ4Value(b: Block, e: nat)
    requires b.Q4K? && b.Valid() && e < 256
    ensures Weight(b, e) == Q4Value(b, e)
  {
    hide MxAffineQuant, MxScaleMin, Q4Scale, Q4Minimum, Q4Quant, Dequantized;
    QuantDecodersAgree(b, e);
    ScaleDecodersAgree(b.scales, e / 32);
  }

  lemma WeightSplits(b: Block, e: nat)
    requires b.Valid() && e < 256
    ensures Weight(b, e) == Scaled(b.d, IntScaleAt(b, e), QuantAt(b, e)) - OffsetAt(b, e)
  {
    hide MxAffineQuant, MxScaleMin, MxQ6Quant, Scaled, Lowered;
  }

  // ----- a row of blocks against a row of activations -----

  ghost predicate Row(row: seq<Block>, x: Vec) {
    |x| == 256 * |row| && forall b :: 0 <= b < |row| ==> row[b].Valid()
  }

  function BlockOf(row: seq<Block>, x: Vec, e: nat): (b: Block)
    requires Row(row, x) && e < |x|
    ensures b.Valid()
  {
    row[e / 256]
  }

  /** An element's place in its block. */
  function Within(e: nat): (i: nat)
    ensures i < 256
  {
    e % 256
  }

  function SlopeOf(row: seq<Block>, x: Vec, e: nat): real
    requires Row(row, x) && e < |x|
  {
    var b := BlockOf(row, x, e);
    Scaled(b.d, IntScaleAt(b, Within(e)), QuantAt(b, Within(e)))
  }

  function OffsetOf(row: seq<Block>, x: Vec, e: nat): real
    requires Row(row, x) && e < |x|
  {
    OffsetAt(BlockOf(row, x, e), Within(e))
  }

  function Slopes(row: seq<Block>, x: Vec): (s: Vec)
    requires Row(row, x)
    ensures |s| == |x| && forall e :: 0 <= e < |x| ==> s[e] == SlopeOf(row, x, e)
  {
    seq(|x|, e requires 0 <= e < |x| => SlopeOf(row, x, e))
  }

  function Weights(row: seq<Block>, x: Vec): (w: Vec)
    requires Row(row, x)
    ensures |w| == |x| && forall e :: 0 <= e < |x| ==> w[e] == Weight(BlockOf(row, x, e), Within(e))
  {
    seq(|x|, e requires 0 <= e < |x| => Weight(BlockOf(row, x, e), Within(e)))
  }

  /** Where the group of 32 that holds element `e` begins. */
  function GroupStart(e: nat): (start: nat)
    ensures start <= e < start + 32 && start % 32 == 0
  {
    e / 32 * 32
  }

  lemma GroupEnds(row: seq<Block>, x: Vec, e: nat)
    requires Row(row, x) && e < |x|
    ensures GroupStart(e) + 32 <= |x|
  {
    var n, group := 8 * |row|, e / 32;
    assert |x| == 32 * n && GroupStart(e) == 32 * group;
    hide *;
    assert group < n;
  }

  /** d of the group of activations. */
  function StepOf(row: seq<Block>, x: Vec, e: nat): real
    requires Row(row, x) && e < |x|
  {
    GroupEnds(row, x, e);
    StepSize(MaxAbs(x, GroupStart(e), 32))
  }

  /** The step the product uses: affine formats keep it in half precision. */
  function InputStep(half: real -> real, row: seq<Block>, x: Vec, e: nat): real
    requires Row(row, x) && e < |x|
  {
    if BlockOf(row, x, e).Q6K? then StepOf(row, x, e) else half(StepOf(row, x, e))
  }

  function RestoredAt(half: real -> real, row: seq<Block>, x: Vec, e: nat): real
    requires Row(row, x) && e < |x|
  {
    Stepped(InputStep(half, row, x, e), Quantized(x[e], StepOf(row, x, e)))
  }

  /** The activations as the product sees them. */
  function Restored(half: real -> real, row: seq<Block>, x: Vec): (r: Vec)
    requires Row(row, x)
    ensures |r| == |x| && forall e :: 0 <= e < |x| ==> r[e] == RestoredAt(half, row, x, e)
  {
    seq(|x|, e requires 0 <= e < |x| => RestoredAt(half, row, x, e))
  }

  // ----- within a run of sixteen, block, scale and step are constant -----

  lemma RunConstant(lo: nat, o: nat)
    requires lo % 16 == 0 && o < 16
    ensures (lo + o) / 256 == lo / 256 && (lo + o) % 256 == lo % 256 + o
    ensures (lo + o) % 256 / 16 == lo % 256 / 16 && (lo + o) % 256 / 32 == lo % 256 / 32
    ensures (lo + o) / 32 == lo / 32
  {
    var k := lo / 16;
    assert lo == 16 * k && (lo + o) / 16 == k;
    assert (lo + o) / 256 == k / 16 && lo / 256 == k / 16;
    assert (lo + o) / 32 == k / 2 && lo / 32 == k / 2;
  }

  lemma SameRun(row: seq<Block>, x: Vec, lo: nat, o: nat)
    requires Row(row, x) && lo % 16 == 0 && o < 16 && lo + o < |x|
    ensures BlockOf(row, x, lo + o) == BlockOf(row, x, lo)
    ensures IntScaleAt(BlockOf(row, x, lo), Within(lo + o)) == IntScaleAt(BlockOf(row, x, lo), Within(lo))
    ensures GroupStart(lo + o) == GroupStart(lo)
  {
    RunConstant(lo, o);
    hide MxScaleMin;
  }

  function QuantOf(row: seq<Block>, x: Vec, e: nat): int
    requires Row(row, x) && e < |x|
  {
    QuantAt(BlockOf(row, x, e), Within(e))
  }

  /** The integer inner product of a run. */
  function IntDot(row: seq<Block>, x: Vec, d: real, lo: nat, n: nat): int
    requires Row(row, x) && lo + n <= |x|
  {
    if n == 0 then 0
    else IntDot(row, x, d, lo, n - 1) + QuantOf(row, x, lo + n - 1) * Quantized(x[lo + n - 1], d)
  }

  /** The integer scale of a run. */
  function RunScale(row: seq<Block>, x: Vec, lo: nat): int
    requires Row(row, x) && lo < |x|
  {
    IntScaleAt(BlockOf(row, x, lo), Within(lo))
  }

  lemma CastProduct(a: int, b: int)
    ensures (a * b) as real == (a as real) * (b as real)
  {}

  lemma FactorTerm(d: real, i: real, s: int, dot: int, q: int, a: int, before: real)
    requires before == d * i * ((s * dot) as real)
    ensures before + Scaled(d, s, q) * Stepped(i, a) == d * i * ((s * (dot + q * a)) as real)
  {
    CastProduct(s, dot);
    CastProduct(s, q);
    CastProduct(q, a);
    CastProduct(s, dot + q * a);
    FactorReals(d, i, s as real, dot as real, q as real, a as real);
  }

  lemma FactorReals(d: real, i: real, s: real, dot: real, q: real, a: real)
    ensures d * i * (s * dot) + (d * (s * q)) * (i * a) == d * i * (s * (dot + q * a))
  {
    assert (d * (s * q)) * (i * a) == d * i * (s * (q * a));
    assert s * (dot + q * a) == s * dot + s * (q * a);
  }

  lemma RunTerm(half: real -> real, row: seq<Block>, x: Vec, lo: nat, o: nat)
    requires Row(row, x) && lo % 16 == 0 && o < 16 && lo + o < |x|
    ensures Slopes(row, x)[lo + o] == Scaled(BlockOf(row, x, lo).d, RunScale(row, x, lo), QuantOf(row, x, lo + o))
    ensures Restored(half, row, x)[lo + o]
         == Stepped(InputStep(half, row, x, lo), Quantized(x[lo + o], StepOf(row, x, lo)))
  {
    hide BlockOf, Within, IntScaleAt, QuantAt, GroupStart, Scaled, Stepped, Quantized, MaxAbs, StepSize, Row;
    SameRun(row, x, lo, o);
  }

  /** The value of a run, with scale and step factored out of an integer sum. */
  function Factored(d: real, step: real, scale: int, dot: int): real { d * step * ((scale * dot) as real) }

  function IntTerm(u: int, v: int): int { u * v }

  lemma FactoredNext(d: real, i: real, s: int, dot: int, q: int, a: int)
    ensures Factored(d, i, s, dot) + RealTerm(Scaled(d, s, q), Stepped(i, a)) == Factored(d, i, s, dot + IntTerm(q, a))
  {
    FactorTerm(d, i, s, dot, q, a, Factored(d, i, s, dot));
  }

  lemma DotFromNext(x: Vec, y: Vec, lo: nat, n: nat, u: real, v: real)
    requires 0 < n && lo + n <= |x| && lo + n <= |y| && u == x[lo + n - 1] && v == y[lo + n - 1]
    ensures DotFrom(x, y, lo, n) == DotFrom(x, y, lo, n - 1) + RealTerm(u, v)
  {}

  lemma IntDotNext(row: seq<Block>, x: Vec, d: real, lo: nat, n: nat, q: int, a: int)
    requires Row(row, x) && 0 < n && lo + n <= |x| && q == QuantOf(row, x, lo + (n - 1))
    requires a == Quantized(x[lo + (n - 1)], d)
    ensures IntDot(row, x, d, lo, n) == IntDot(row, x, d, lo, n - 1) + IntTerm(q, a)
  {
    hide QuantOf, Quantized;
  }

  lemma DotFromNothing(x: Vec, y: Vec, lo: nat)
    requires lo <= |x| && lo <= |y|
    ensures DotFrom(x, y, lo, 0) == 0.0
  {}

  lemma FactoredNothing(row: seq<Block>, x: Vec, step: real, lo: nat, d: real, i: real, s: int)
    requires Row(row, x) && lo <= |x|
    ensures IntDot(row, x, step, lo, 0) == 0 && Factored(d, i, s, 0) == 0.0
  {}

  lemma {:induction false} RunFactors(half: real -> real, row: seq<Block>, x: Vec, lo: nat, n: nat)
    requires Row(row, x) && lo % 16 == 0 && n <= 16 && lo + n <= |x| && lo < |x|
    ensures DotFrom(Slopes(row, x), Restored(half, row, x), lo, n)
         == Factored(BlockOf(row, x, lo).d, InputStep(half, row, x, lo), RunScale(row, x, lo),
                     IntDot(row, x, StepOf(row, x, lo), lo, n))
  {
    hide *;
    var d, step, scale := BlockOf(row, x, lo).d, InputStep(half, row, x, lo), RunScale(row, x, lo);
    if n == 0 {
      DotFromNothing(Slopes(row, x), Restored(half, row, x), lo);
      FactoredNothing(row, x, StepOf(row, x, lo), lo, d, step, scale);
    } else {
      var o := n - 1;
      var q, a := QuantOf(row, x, lo + o), Quantized(x[lo + o], StepOf(row, x, lo));
      RunFactors(half, row, x, lo, o);
      RunTerm(half, row, x, lo, o);
      DotFromNext(Slopes(row, x), Restored(half, row, x), lo, n, Scaled(d, scale, q), Stepped(step, a));
      IntDotNext(row, x, StepOf(row, x, lo), lo, n, q, a);
      FactoredNext(d, step, scale, IntDot(row, x, StepOf(row, x, lo), lo, o), q, a);
    }
  }

  // ----- one group of 32 columns -----

  lemma GroupConstant(lo: nat, o: nat)
    requires lo % 32 == 0 && o < 32
    ensures (lo + o) / 256 == lo / 256 && (lo + o) % 256 == lo % 256 + o
    ensures (lo + o) % 256 / 32 == lo % 256 / 32 && (lo + o) / 32 * 32 == lo
  {
    var k := lo / 32;
    assert lo == 32 * k && (lo + o) / 32 == k;
    assert (lo + o) / 256 == k / 8 && lo / 256 == k / 8;
  }

  lemma SameGroup(row: seq<Block>, x: Vec, lo: nat, o: nat)
    requires Row(row, x) && lo % 32 == 0 && o < 32 && lo + o < |x|
    ensures BlockOf(row, x, lo + o) == BlockOf(row, x, lo) && OffsetOf(row, x, lo + o) == OffsetOf(row, x, lo)
    ensures GroupStart(lo + o) == lo
    ensures !BlockOf(row, x, lo).Q6K? ==>
      IntScaleAt(BlockOf(row, x, lo), Within(lo + o)) == IntScaleAt(BlockOf(row, x, lo), Within(lo))
  {
    GroupConstant(lo, o);
    GroupConstant(lo, 0);
    hide MxScaleMin, Lowered;
  }

  lemma WholeGroup(row: seq<Block>, x: Vec, lo: nat)
    requires Row(row, x) && lo % 32 == 0 && lo < |x|
    ensures lo + 32 <= |x| && GroupStart(lo) == lo
    ensures InputStep(id => id, row, x, lo) == StepOf(row, x, lo)
    ensures StepOf(row, x, lo) == StepSize(MaxAbs(x, lo, 32))
  {
    GroupConstant(lo, 0);
    GroupEnds(row, x, lo);
    hide MaxAbs, StepSize;
  }

  /** What a group contributes: its weighted restored activations less its lowered sum. */
  function GroupTerm(half: real -> real, row: seq<Block>, x: Vec, lo: nat): real
    requires Row(row, x) && lo + 32 <= |x|
  {
    DotFrom(Slopes(row, x), Restored(half, row, x), lo, 32) - RealTerm(OffsetOf(row, x, lo), half(Sum(x, lo, 32)))
  }

  lemma DotFromSplits(x: Vec, y: Vec, lo: nat, n: nat, m: nat)
    requires lo + n + m <= |x| && lo + n + m <= |y|
    ensures DotFrom(x, y, lo, n + m) == DotFrom(x, y, lo, n) + DotFrom(x, y, lo + n, m)
  {
    hide DotFrom;
    DotExtends(x, y, lo, n);
    DotExtends(x, y, lo + n, m);
    DotExtends(x, y, lo, n + m);
  }

  lemma FactoredSum(d: real, i: real, s: int, lo: int, hi: int)
    ensures Factored(d, i, s, lo) + Factored(d, i, s, hi) == d * i * ((s * (lo + hi)) as real)
  {
    CastProduct(s, lo);
    CastProduct(s, hi);
    CastProduct(s, lo + hi);
    SpreadReal(d * i, s as real, lo as real, hi as real);
  }

  lemma SpreadReal(f: real, s: real, lo: real, hi: real)
    ensures f * (s * lo) + f * (s * hi) == f * (s * (lo + hi))
  {
    assert s * (lo + hi) == s * lo + s * hi;
  }

  lemma FactoredPair(d: real, i: real, s: int, t: int, lo: int, hi: int)
    ensures Factored(d, i, s, lo) + Factored(d, i, t, hi) == d * i * ((s * lo + t * hi) as real)
  {
    SpreadPair(d * i, (s * lo) as real, (t * hi) as real);
  }

  lemma SpreadPair(f: real, a: real, b: real)
    ensures f * a + f * b == f * (a + b)
  {}

  lemma SecondRun(half: real -> real, row: seq<Block>, x: Vec, lo: nat)
    requires Row(row, x) && lo % 32 == 0 && lo + 32 <= |x|
    ensures BlockOf(row, x, lo + 16) == BlockOf(row, x, lo)
    ensures StepOf(row, x, lo + 16) == StepOf(row, x, lo)
    ensures InputStep(half, row, x, lo + 16) == InputStep(half, row, x, lo)
    ensures !BlockOf(row, x, lo).Q6K? ==> RunScale(row, x, lo + 16) == RunScale(row, x, lo)
  {
    hide BlockOf, GroupStart, OffsetOf, MaxAbs, StepSize, IntScaleAt, Within;
    SameGroup(row, x, lo, 0);
    SameGroup(row, x, lo, 16);
  }

  lemma Halves(lo: nat)
    requires lo % 32 == 0
    ensures lo % 16 == 0 && (lo + 16) % 16 == 0
  {}

  /** The two halves of a group are runs with the group's block and step. */
  lemma GroupRuns(half: real -> real, row: seq<Block>, x: Vec, lo: nat)
    requires Row(row, x) && lo % 32 == 0 && lo + 32 <= |x|
    ensures var b := BlockOf(row, x, lo); var step, d := InputStep(half, row, x, lo), StepOf(row, x, lo);
      DotFrom(Slopes(row, x), Restored(half, row, x), lo, 32)
      == Factored(b.d, step, RunScale(row, x, lo), IntDot(row, x, d, lo, 16))
         + Factored(b.d, step, RunScale(row, x, lo + 16), IntDot(row, x, d, lo + 16, 16))
    ensures !BlockOf(row, x, lo).Q6K? ==> RunScale(row, x, lo + 16) == RunScale(row, x, lo)
  {
    hide *;
    Halves(lo);
    DotFromSplits(Slopes(row, x), Restored(half, row, x), lo, 16, 16);
    RunFactors(half, row, x, lo, 16);
    RunFactors(half, row, x, lo + 16, 16);
    SecondRun(half, row, x, lo);
  }

  /** The integer loop over a group: the first sixteen and the last sixteen apart. */
  method IntDots(row: seq<Block>, x: Vec, lo: nat, d: real) returns (dotLo: int, dotHi: int)
    requires Row(row, x) && lo + 32 <= |x|
    ensures dotLo == IntDot(row, x, d, lo, 16) && dotHi == IntDot(row, x, d, lo + 16, 16)
  {
    hide QuantOf, Quantized, Row;
    dotLo, dotHi := 0, 0;
    for offset := 0 to 32
      invariant dotLo == IntDot(row, x, d, lo, if offset < 16 then offset else 16)
      invariant dotHi == IntDot(row, x, d, lo + 16, if offset < 16 then 0 else offset - 16)
    {
      var q, quantized := QuantOf(row, x, lo + offset), Quantized(x[lo + offset], d);
      if offset < 16 { dotLo := dotLo + q * quantized; } else { dotHi := dotHi + q * quantized; }
    }
  }

  /** d * input_d * float(scale0 * dot_lo + scale1 * dot_hi) */
  method PairValue(d: real, step: real, scale0: int, scale1: int, dotLo: int, dotHi: int) returns (value: real)
    ensures value == Factored(d, step, scale0, dotLo) + Factored(d, step, scale1, dotHi)
  {
    FactoredPair(d, step, scale0, scale1, dotLo, dotHi);
    value := d * step * ((scale0 * dotLo + scale1 * dotHi) as real);
  }

  /** d * input_d * float(scale * (dot_lo + dot_hi)) - dmin * float(minimum) * input_sum */
  method AffineValue(d: real, dmin: real, step: real, scale: int, minimum: int, dotLo: int, dotHi: int, sum: real)
    returns (value: real)
    ensures value == Factored(d, step, scale, dotLo) + Factored(d, step, scale,
                                                                dotHi) - RealTerm(Lowered(dmin, minimum), sum)
  {
    FactoredSum(d, step, scale, dotLo, dotHi);
    value := d * step * ((scale * (dotLo + dotHi)) as real) - dmin * (minimum as real) * sum;
  }

  lemma NoOffset(row: seq<Block>, x: Vec, lo: nat, sum: real)
    requires Row(row, x) && lo < |x| && BlockOf(row, x, lo).Q6K?
    ensures RealTerm(OffsetOf(row, x, lo), sum) == 0.0
  {}

  /** One group as the program computes it. */
  method GroupValue(half: real -> real, row: seq<Block>, x: Vec, lo: nat) returns (value: real)
    requires Row(row, x) && lo % 32 == 0 && lo + 32 <= |x|
    ensures value == GroupTerm(half, row, x, lo)
  {
    hide DotFrom, Slopes, Restored, IntDot, Factored, GroupStart, MaxAbs, MxScaleMin, Within, Scaled, BlockOf,
         RealTerm, Lowered, StepSize, StepOf, Sum, Row;
    WholeGroup(row, x, lo);
    GroupRuns(half, row, x, lo);
    var maxAbs, sum := MaxAndSum(x, lo, 32);
    var d := StepSize(maxAbs);
    var b := BlockOf(row, x, lo);
    var inputStep := if b.Q6K? then d else half(d);
    var dotLo, dotHi := IntDots(row, x, lo, d);
    if b.Q6K? {
      NoOffset(row, x, lo, half(sum));
      value := PairValue(b.d, inputStep, RunScale(row, x, lo), RunScale(row, x, lo + 16), dotLo, dotHi);
    } else {
      value := AffineValue(b.d, b.dmin, inputStep, RunScale(row, x, lo),
                           MxScaleMin(b.scales, Within(lo) / 32).minimum as int, dotLo, dotHi, half(sum));
    }
  }

  // ----- the whole row -----

  /** Groups [0, n). */
  function RowTerm(half: real -> real, row: seq<Block>, x: Vec, n: nat): real
    requires Row(row, x) && 32 * n <= |x|
  {
    if n == 0 then 0.0 else RowTerm(half, row, x, n - 1) + GroupTerm(half, row, x, 32 * (n - 1))
  }

  lemma NextGroup(half: real -> real, row: seq<Block>, x: Vec, n: nat, value: real)
    requires Row(row, x) && 32 * n + 32 <= |x| && value == GroupTerm(half, row, x, 32 * n)
    ensures RowTerm(half, row, x, n + 1) == RowTerm(half, row, x, n) + value
  {
    hide Row, GroupTerm;
  }

  lemma NoGroups(half: real -> real, row: seq<Block>, x: Vec)
    requires Row(row, x)
    ensures RowTerm(half, row, x, 0) == 0.0
  {}

  lemma GroupAddress(block128: nat, group: nat)
    ensures 32 * (4 * block128 + group) == 128 * block128 + 32 * group && (128 * block128 + 32 * group) % 32 == 0
  {}

  /** mx_expected_value for one row and one token. */
  method ExpectedValue(half: real -> real, row: seq<Block>, x: Vec) returns (result: real)
    requires Row(row, x)
    ensures result == RowTerm(half, row, x, |x| / 32)
  {
    hide *;
    RowLength(row, x);
    NoGroups(half, row, x);
    var blocks := |x| / 128;
    result := 0.0;
    for block128 := 0 to blocks
      invariant result == RowTerm(half, row, x, 4 * block128)
    {
      for group := 0 to 4
        invariant result == RowTerm(half, row, x, 4 * block128 + group)
      {
        GroupAddress(block128, group);
        var value := GroupValue(half, row, x, 128 * block128 + 32 * group);
        NextGroup(half, row, x, 4 * block128 + group, value);
        result := result + value;
      }
    }
  }

  lemma RowLength(row: seq<Block>, x: Vec)
    requires Row(row, x)
    ensures |x| % 256 == 0 && 32 * (|x| / 32) == |x| && 128 * (|x| / 128) == |x| && 4 * (|x| / 128) == |x| / 32
  {
    Divides(|row|, |x|);
  }

  lemma Divides(n: nat, length: nat)
    requires length == 256 * n
    ensures length % 256 == 0 && length / 128 == 2 * n && length / 32 == 8 * n
  {}
}
