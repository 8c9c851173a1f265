/** The quantised product on the flat weight and input buffers: every column's weight and activation
    at the source's own index, and the result and its error written out column by column. */
module QuantFlat {
  import opened LinearAlgebra
  import opened KQuant
  import opened Q8Activation
  import opened QuantDot
  import opened QuantError

  /** One call: which row of the weights meets which token of the input. */
  datatype Call = Call(weights: seq<Block>, input: Vec, row: nat, token: nat, columns: nat)
  {
    ghost predicate Valid() {
      && columns % 256 == 0
      && (forall b :: 0 <= b < |weights| ==> weights[b].Valid())
      && row * (columns / 256) + columns / 256 <= |weights|
      && token * columns + columns <= |input|
    }

    /** The blocks of the row. */
    function Blocks(): (r: seq<Block>)
      requires Valid()
      ensures |r| == columns / 256
    {
      weights[row * (columns / 256)..row * (columns / 256) + columns / 256]
    }

    /** The activations of the token. */
    function Activations(): (x: Vec)
      requires Valid()
      ensures |x| == columns
    {
      input[token * columns..token * columns + columns]
    }

    /** The block that holds column `i`. */
    function BlockAt(i: nat): (b: Block)
      requires Valid() && i < columns
      ensures b.Valid()
    {
      weights[row * (columns / 256) + i / 256]
    }

    function InputAt(i: nat): real
      requires Valid() && i < columns
    {
      input[token * columns + i]
    }
  }

  // ----- one column, in the fields of its block -----

  /** Q6_K scales sixteen elements with a signed byte, the affine formats 32 with six bits. */
  function ScaleField(b: Block, e: nat): int
    requires b.Valid() && e < 256
  {
    match b
    case Q6K(_, _, scales, _) => scales[e / 16]
    case Q4K(_, _, scales, _) => MxScaleMin(scales, e / 32).scale as int
    case Q5K(_, _, scales, _, _) => MxScaleMin(scales, e / 32).scale as int
  }

  function QuantField(b: Block, e: nat): int
    requires b.Valid() && e < 256
  {
    match b
    case Q6K(low, high, _, _) => MxQ6Quant(low, high, e)
    case Q4K(_, _, _, _) => MxAffineQuant(b, e) as int
    case Q5K(_, _, _, _, _) => MxAffineQuant(b, e) as int
  }

  /** d * float(scale * q) */
  function SlopeAt(b: Block, e: nat): real
    requires b.Valid() && e < 256
  {
    b.d * ((ScaleField(b, e) * QuantField(b, e)) as real)
  }

  function MinimumField(b: Block, e: nat): int
    requires b.Valid() && e < 256
  {
    match b
    case Q6K(_, _, _, _) => 0
    case Q4K(_, _, scales, _) => MxScaleMin(scales, e / 32).minimum as int
    case Q5K(_, _, scales, _, _) => MxScaleMin(scales, e / 32).minimum as int
  }

  /** dmin * float(minimum); Q6_K has no minimums. */
  function MinimumAt(b: Block, e: nat): real
    requires b.Valid() && e < 256
  {
    if b.Q6K? then 0.0 else b.dmin * (MinimumField(b, e) as real)
  }

  /** The largest activation of the group of 32 that holds column `i`, over 127. */
  function InputStepAt(c: Call, i: nat): real
    requires c.Valid() && i < c.columns
  {
    GroupInside(c, i);
    MaxAbs(c.input, c.token * c.columns + i / 32 * 32, 32) / 127.0
  }

  lemma GroupInside(c: Call, i: nat)
    requires c.Valid() && i < c.columns
    ensures i / 32 * 32 + 32 <= c.columns
  {
    var n := c.columns / 32;
    assert c.columns == 32 * n;
    hide *;
    assert i / 32 < n;
  }

  /** The activation as the product sees it. */
  function RestoredInput(half: real -> real, c: Call, i: nat): real
    requires c.Valid() && i < c.columns
  {
    var d := InputStepAt(c, i);
    (if c.BlockAt(i).Q6K? then d else half(d)) * (Quantized(c.InputAt(i), d) as real)
  }

  // ----- sums over columns and groups -----

  /** The exact product of the first `n` columns. */
  function ProductUpTo(c: Call, n: nat): real
    requires c.Valid() && n <= c.columns
  {
    if n == 0 then 0.0
    else
      ProductUpTo(c, n - 1)
      + (SlopeAt(c.BlockAt(n - 1), (n - 1) % 256) - MinimumAt(c.BlockAt(n - 1), (n - 1) % 256)) * c.InputAt(n - 1)
  }

  /** The part of the scaled quants. */
  function ScaledUpTo(half: real -> real, c: Call, n: nat): real
    requires c.Valid() && n <= c.columns
  {
    if n == 0 then 0.0
    else
      ScaledUpTo(half, c, n - 1) + SlopeAt(c.BlockAt(n - 1), (n - 1) % 256) * RestoredInput(half, c, n - 1)
  }

  /** The part of the minimums: one a group of 32 columns. */
  function MinimumsUpTo(half: real -> real, c: Call, groups: nat): real
    requires c.Valid() && 32 * groups <= c.columns
  {
    if groups == 0 then 0.0
    else
      var first := 32 * (groups - 1);
      MinimumsUpTo(half, c, groups - 1)
      + MinimumAt(c.BlockAt(first), first % 256) * half(Sum(c.input, c.token * c.columns + first, 32))
  }

  /** Half a step of the activation for every |slope|. */
  function BoundUpTo(c: Call, n: nat): real
    requires c.Valid() && n <= c.columns
  {
    if n == 0 then 0.0
    else
      BoundUpTo(c, n - 1) + Abs(SlopeAt(c.BlockAt(n - 1), (n - 1) % 256)) * (InputStepAt(c, n - 1) / 2.0)
  }

  // ----- it is what the product computes -----

  lemma CallIsRow(c: Call)
    requires c.Valid()
    ensures Row(c.Blocks(), c.Activations())
  {
    hide Block.Valid;
    var start := c.row * (c.columns / 256);
    forall b | 0 <= b < |c.Blocks()| ensures c.Blocks()[b].Valid() {
      assert c.Blocks()[b] == c.weights[start + b];
    }
  }

  /** Block b of the row is block row * (columns / 256) + b of the buffer, and column i of the token
      is entry token * columns + i. */
  lemma ColumnAt(c: Call, i: nat)
    requires c.Valid() && i < c.columns
    ensures Row(c.Blocks(), c.Activations())
    ensures BlockOf(c.Blocks(), c.Activations(), i) == c.BlockAt(i) && Within(i) == i % 256
    ensures c.Activations()[i] == c.InputAt(i)
  {
    CallIsRow(c);
    hide Block.Valid;
    var blocks := c.columns / 256;
    assert c.columns == 256 * blocks;
    assert i / 256 < blocks;
  }

  lemma {:induction false} MaxAbsWithin(x: Vec, base: nat, length: nat, start: nat, n: nat)
    requires base + length <= |x| && start + n <= length
    ensures MaxAbs(x[base..base + length], start, n) == MaxAbs(x, base + start, n)
  {
    if n != 0 { MaxAbsWithin(x, base, length, start, n - 1); }
  }

  lemma {:induction false} SumWithin(x: Vec, base: nat, length: nat, start: nat, n: nat)
    requires base + length <= |x| && start + n <= length
    ensures Sum(x[base..base + length], start, n) == Sum(x, base + start, n)
  {
    if n != 0 { SumWithin(x, base, length, start, n - 1); }
  }

  lemma StepAt(c: Call, i: nat)
    requires c.Valid() && i < c.columns && Row(c.Blocks(), c.Activations())
    ensures StepOf(c.Blocks(), c.Activations(), i) == InputStepAt(c, i)
  {
    hide MaxAbs, Row, Block.Valid;
    GroupEnds(c.Blocks(), c.Activations(), i);
    var start := c.token * c.columns;
    MaxAbsWithin(c.input, start, c.columns, i / 32 * 32, 32);
  }

  lemma FieldsAre(b: Block, e: nat)
    requires b.Valid() && e < 256
    ensures ScaleField(b, e) == IntScaleAt(b, e) && QuantField(b, e) == QuantAt(b, e)
  {
    hide MxAffineQuant, MxQ6Quant, MxScaleMin;
  }

  lemma MinimumFieldIs(b: Block, e: nat)
    requires b.Valid() && e < 256 && !b.Q6K?
    ensures MinimumField(b, e) == MxScaleMin(b.scales, e / 32).minimum as int
  {
    hide MxScaleMin;
  }

  lemma MinimumIs(b: Block, e: nat)
    requires b.Valid() && e < 256
    ensures OffsetAt(b, e) == MinimumAt(b, e)
  {
    if !b.Q6K? { MinimumFieldIs(b, e); }
    hide MxScaleMin, MinimumField;
  }

  lemma SlopeNamed(b: Block, e: nat, s: int, q: int)
    requires b.Valid() && e < 256 && s == ScaleField(b, e) && q == QuantField(b, e)
    ensures SlopeAt(b, e) == Scaled(b.d, s, q)
  {
    hide ScaleField, QuantField, Block.Valid;
  }

  lemma SlopeIs(b: Block, e: nat)
    requires b.Valid() && e < 256
    ensures Scaled(b.d, IntScaleAt(b, e), QuantAt(b, e)) == SlopeAt(b, e)
    ensures Weight(b, e) == SlopeAt(b, e) - MinimumAt(b, e)
  {
    hide *;
    FieldsAre(b, e);
    MinimumIs(b, e);
    WeightSplits(b, e);
    SlopeNamed(b, e, IntScaleAt(b, e), QuantAt(b, e));
  }

  /** Everything the product needs of one column. */
  lemma ColumnIs(half: real -> real, c: Call, i: nat)
    requires c.Valid() && i < c.columns
    ensures Row(c.Blocks(), c.Activations())
    ensures var r, x, b, e := c.Blocks(), c.Activations(), c.BlockAt(i), i % 256;
      && x[i] == c.InputAt(i) && StepOf(r, x, i) == InputStepAt(c, i)
      && Slopes(r, x)[i] == SlopeAt(b, e) && OffsetOf(r, x, i) == MinimumAt(b, e)
      && Weights(r, x)[i] == SlopeAt(b, e) - MinimumAt(b, e)
      && Restored(half, r, x)[i] == RestoredInput(half, c, i)
  {
    hide *;
    ColumnAt(c, i);
    StepAt(c, i);
    SlopeIs(c.BlockAt(i), i % 256);
    MinimumIs(c.BlockAt(i), i % 256);
    ColumnUnfolds(half, c.Blocks(), c.Activations(), i);
    RestoredUnfolds(half, c, i);
  }

  lemma ColumnUnfolds(half: real -> real, r: seq<Block>, x: Vec, i: nat)
    requires Row(r, x) && i < |x|
    ensures var b, e, d := BlockOf(r, x, i), Within(i), StepOf(r, x, i);
      && Slopes(r, x)[i] == Scaled(b.d, IntScaleAt(b, e), QuantAt(b, e)) && OffsetOf(r, x, i) == OffsetAt(b, e)
      && Weights(r, x)[i] == Weight(b, e)
      && Restored(half, r, x)[i] == Stepped(if b.Q6K? then d else half(d), Quantized(x[i], d))
  {
    hide Row, BlockOf, Within, StepOf, Scaled, IntScaleAt, QuantAt, OffsetAt, Weight, Stepped, Quantized;
  }

  lemma RestoredUnfolds(half: real -> real, c: Call, i: nat)
    requires c.Valid() && i < c.columns
    ensures var d := InputStepAt(c, i);
      RestoredInput(half, c, i) == Stepped(if c.BlockAt(i).Q6K? then d else half(d), Quantized(c.InputAt(i), d))
  {
    hide InputStepAt, Quantized, Call.BlockAt, Call.InputAt, Call.Valid;
  }

  // ----- the sums -----

  lemma ProductNext(c: Call, n: nat, w: real, x: real)
    requires c.Valid() && 0 < n <= c.columns && x == c.InputAt(n - 1)
    requires w == SlopeAt(c.BlockAt(n - 1), (n - 1) % 256) - MinimumAt(c.BlockAt(n - 1), (n - 1) % 256)
    ensures ProductUpTo(c, n) == ProductUpTo(c, n - 1) + RealTerm(w, x)
  {
    hide SlopeAt, MinimumAt, Call.BlockAt, Call.InputAt, Call.Valid;
  }

  lemma ScaledNext(half: real -> real, c: Call, n: nat, s: real, x: real)
    requires c.Valid() && 0 < n <= c.columns && x == RestoredInput(half, c, n - 1)
    requires s == SlopeAt(c.BlockAt(n - 1), (n - 1) % 256)
    ensures ScaledUpTo(half, c, n) == ScaledUpTo(half, c, n - 1) + RealTerm(s, x)
  {
    hide SlopeAt, RestoredInput, Call.BlockAt, Call.Valid;
  }

  lemma BoundNext(c: Call, n: nat, s: real, d: real)
    requires c.Valid() && 0 < n <= c.columns && d == InputStepAt(c, n - 1)
    requires s == SlopeAt(c.BlockAt(n - 1), (n - 1) % 256)
    ensures BoundUpTo(c, n) == BoundUpTo(c, n - 1) + RealTerm(Abs(s), d / 2.0)
  {
    hide SlopeAt, InputStepAt, Abs, Call.BlockAt, Call.Valid;
  }

  lemma NoColumns(half: real -> real, c: Call)
    requires c.Valid()
    ensures ProductUpTo(c, 0) == ScaledUpTo(half, c, 0) == BoundUpTo(c, 0) == 0.0
  {}

  lemma {:induction false} ProductIsDot(half: real -> real, c: Call, n: nat)
    requires c.Valid() && n <= c.columns && Row(c.Blocks(), c.Activations())
    ensures Dot(Weights(c.Blocks(), c.Activations()), c.Activations(), n) == ProductUpTo(c, n)
  {
    hide *;
    var w, x := Weights(c.Blocks(), c.Activations()), c.Activations();
    if n == 0 {
      DotEmpty(w, x);
      NoColumns(half, c);
    } else {
      ProductIsDot(half, c, n - 1);
      ColumnIs(half, c, n - 1);
      ProductNext(c, n, w[n - 1], x[n - 1]);
      DotNext(w, x, n, w[n - 1], x[n - 1]);
    }
  }

  lemma {:induction false} ScaledIsDot(half: real -> real, c: Call, n: nat)
    requires c.Valid() && n <= c.columns && Row(c.Blocks(), c.Activations())
    ensures Dot(Slopes(c.Blocks(), c.Activations()), Restored(half, c.Blocks(), c.Activations()), n)
         == ScaledUpTo(half, c, n)
  {
    hide *;
    var s, x := Slopes(c.Blocks(), c.Activations()), Restored(half, c.Blocks(), c.Activations());
    if n == 0 {
      DotEmpty(s, x);
      NoColumns(half, c);
    } else {
      ScaledIsDot(half, c, n - 1);
      ColumnIs(half, c, n - 1);
      ScaledNext(half, c, n, s[n - 1], x[n - 1]);
      DotNext(s, x, n, s[n - 1], x[n - 1]);
    }
  }

  lemma NoSteps(row: seq<Block>, x: Vec)
    requires Row(row, x)
    ensures HalfSteps(row, x, 0) == 0.0
  {}

  lemma {:induction false} BoundIsHalfSteps(half: real -> real, c: Call, n: nat)
    requires c.Valid() && n <= c.columns && Row(c.Blocks(), c.Activations())
    ensures HalfSteps(c.Blocks(), c.Activations(), n) == BoundUpTo(c, n)
  {
    hide *;
    if n == 0 {
      NoSteps(c.Blocks(), c.Activations());
      NoColumns(half, c);
    } else {
      BoundIsHalfSteps(half, c, n - 1);
      ColumnIs(half, c, n - 1);
      BoundNext(c, n, Slopes(c.Blocks(), c.Activations())[n - 1], InputStepAt(c, n - 1));
      HalfStepsNext(c.Blocks(), c.Activations(), n);
    }
  }

  lemma MinimumsNext(half: real -> real, c: Call, groups: nat, o: real, sum: real)
    requires c.Valid() && 0 < groups && 32 * groups <= c.columns
    requires o == MinimumAt(c.BlockAt(32 * (groups - 1)), 32 * (groups - 1) % 256)
    requires sum == half(Sum(c.input, c.token * c.columns + 32 * (groups - 1), 32))
    ensures MinimumsUpTo(half, c, groups) == MinimumsUpTo(half, c, groups - 1) + RealTerm(o, sum)
  {
    hide MinimumAt, Sum, Call.BlockAt, Call.Valid;
  }

  lemma GroupSum(c: Call, group: nat)
    requires c.Valid() && 32 * group + 32 <= c.columns
    ensures Sum(c.Activations(), 32 * group, 32) == Sum(c.input, c.token * c.columns + 32 * group, 32)
  {
    SumWithin(c.input, c.token * c.columns, c.columns, 32 * group, 32);
  }

  lemma NoMinimums(half: real -> real, c: Call)
    requires c.Valid() && Row(c.Blocks(), c.Activations())
    ensures MinimumsUpTo(half, c, 0) == 0.0 == LoweredSums(half, c.Blocks(), c.Activations(), 0)
  {}

  lemma LoweredNext(half: real -> real, row: seq<Block>, x: Vec, n: nat)
    requires Row(row, x) && 0 < n && 32 * n <= |x|
    ensures LoweredSums(half, row, x, n)
         == LoweredSums(half, row, x, n - 1)
            + RealTerm(OffsetOf(row, x, 32 * (n - 1)), half(Sum(x, 32 * (n - 1), 32)))
  {
    hide Row, OffsetOf, Sum, RealTerm;
  }

  lemma {:induction false} MinimumsAreLowered(half: real -> real, c: Call, groups: nat)
    requires c.Valid() && 32 * groups <= c.columns && Row(c.Blocks(), c.Activations())
    ensures LoweredSums(half, c.Blocks(), c.Activations(), groups) == MinimumsUpTo(half, c, groups)
  {
    hide *;
    if groups == 0 {
      NoMinimums(half, c);
    } else {
      var r, x, g := c.Blocks(), c.Activations(), groups - 1;
      MinimumsAreLowered(half, c, g);
      ColumnIs(half, c, 32 * g);
      GroupSum(c, g);
      LoweredNext(half, r, x, groups);
      MinimumsNext(half, c, groups, OffsetOf(r, x, 32 * g), half(Sum(x, 32 * g, 32)));
    }
  }

  // ----- the whole product -----

  /** Rounding to half precision costs nothing: it is exact, or every block of the row is Q6_K. */
  ghost predicate Lossless(half: real -> real, c: Call)
    requires c.Valid()
  {
    (forall y {:trigger half(y)} :: half(y) == y) || forall i :: 0 <= i < c.columns ==> c.BlockAt(i).Q6K?
  }

  lemma LosslessRow(half: real -> real, c: Call)
    requires c.Valid() && Lossless(half, c)
    ensures NoHalfLoss(half, c.Blocks())
  {
    hide Block.Valid;
    if !(forall y {:trigger half(y)} :: half(y) == y) {
      forall b | 0 <= b < |c.Blocks()| ensures c.Blocks()[b].Q6K? {
        assert 256 * b < c.columns && 256 * b / 256 == b;
        assert c.BlockAt(256 * b).Q6K?;
      }
    }
  }

  /** The value of a call: scaled quants on the restored activations, less the minimums on the sums. */
  lemma RowTermIsFlat(half: real -> real, c: Call)
    requires c.Valid() && Row(c.Blocks(), c.Activations())
    ensures RowTerm(half, c.Blocks(), c.Activations(), c.columns / 32)
         == ScaledUpTo(half, c, c.columns) - MinimumsUpTo(half, c, c.columns / 32)
  {
    hide *;
    RowLength(c.Blocks(), c.Activations());
    BlockedIsColumnwise(half, c.Blocks(), c.Activations(), c.columns / 32);
    ScaledIsDot(half, c, c.columns);
    MinimumsAreLowered(half, c, c.columns / 32);
  }

  /** ... and how far it is from the exact product. */
  lemma RowTermIsClose(half: real -> real, c: Call)
    requires c.Valid() && Row(c.Blocks(), c.Activations()) && Lossless(half, c)
    ensures Abs(ProductUpTo(c, c.columns) - RowTerm(half, c.Blocks(), c.Activations(), c.columns / 32))
         <= BoundUpTo(c, c.columns)
  {
    hide *;
    LosslessRow(half, c);
    ErrorBound(half, c.Blocks(), c.Activations());
    ProductIsDot(half, c, c.columns);
    BoundIsHalfSteps(half, c, c.columns);
  }

  /** mx_expected_value on the flat buffers. */
  method MxExpectedValue(half: real -> real, weights: seq<Block>, input: Vec, row: nat, token: nat, columns: nat)
    returns (result: real)
    requires Call(weights, input, row, token, columns).Valid()
    ensures var c := Call(weights, input, row, token, columns);
      && result == ScaledUpTo(half, c, columns) - MinimumsUpTo(half, c, columns / 32)
      && (Lossless(half, c) ==> Abs(ProductUpTo(c, columns) - result) <= BoundUpTo(c, columns))
  {
    hide *;
    var c := Call(weights, input, row, token, columns);
    CallIsRow(c);
    result := ExpectedValue(half, c.Blocks(), c.Activations());
    RowTermIsFlat(half, c);
    if Lossless(half, c) { RowTermIsClose(half, c); }
  }
}
