/** What the attention kernels are for: the softmax-weighted mean of the cached values over a
    token's causal prefix, times an optional sigmoid gate. */
module Attention {
  import opened Wrappers
  import opened LinearAlgebra
  import opened Layout
  import opened ExpLog
  import opened Softmax
  import opened OnlineSoftmax
  import opened AttentionProblem

  lemma ExpPositive(exp: real -> real, x: real)
    requires Exponential(exp)
    ensures exp(x) > 0.0
  {
    hide Exponential;
    ExpZero(exp, 0.0);
    ExpSum(exp, x, -x, 0.0);
    ExpSum(exp, x / 2.0, x / 2.0, x);
    var h := exp(x / 2.0);
    if h == 0.0 {
      NoInverse(exp(x), exp(-x));
    } else {
      SquarePositive(h);
    }
  }

  lemma NoInverse(a: real, b: real)
    requires a * b == 1.0
    ensures a != 0.0
  {}

  lemma SquarePositive(h: real)
    requires h != 0.0
    ensures h * h > 0.0
  {}

  /** A sum of weights is at least any one of its terms. */
  lemma {:induction false} SumAbove(exp: real -> real, s: seq<real>, m: real, lo: nat, hi: nat, i: nat)
    requires Exponential(exp) && lo <= i < hi <= |s|
    ensures SumExp(exp, s, m, lo, hi) >= exp(s[i] - m)
  {
    hide Exponential;
    ExpPositive(exp, s[hi - 1] - m);
    if i < hi - 1 {
      SumAbove(exp, s, m, lo, hi - 1, i);
    } else {
      SumNotNegative(exp, s, m, lo, hi - 1);
    }
  }

  lemma {:induction false} SumNotNegative(exp: real -> real, s: seq<real>, m: real, lo: nat, hi: nat)
    requires Exponential(exp) && lo <= hi <= |s|
    ensures SumExp(exp, s, m, lo, hi) >= 0.0
  {
    hide Exponential;
    if lo < hi {
      ExpPositive(exp, s[hi - 1] - m);
      SumNotNegative(exp, s, m, lo, hi - 1);
    }
  }

  lemma SumPositive(exp: real -> real, s: seq<real>, m: real, lo: nat, hi: nat)
    requires Exponential(exp) && lo < hi <= |s|
    ensures SumExp(exp, s, m, lo, hi) > 0.0
  {
    hide *;
    SumAbove(exp, s, m, lo, hi, lo);
    ExpPositive(exp, s[lo] - m);
  }

  /** The running sum after at least one position is at least one, so the kernels' fallback for a
      zero denominator is never taken. */
  lemma SumAtLeastOne(exp: real -> real, s: seq<real>, v: seq<Vec>, size: nat, lo: nat, hi: nat)
    requires Exponential(exp) && lo < hi <= |s| == |v| && Sized(v, size)
    ensures Summary(exp, s, v, size, lo, hi).max.Fin? && Summary(exp, s, v, size, lo, hi).sum >= 1.0
  {
    hide Exponential, MaxScore, SumExp, AccExp, Sized;
    MaxScoreIsMax(s, lo, hi);
    var m := MaxScore(s, lo, hi).value;
    var i :| lo <= i < hi && s[i] == m;
    SumAbove(exp, s, m, lo, hi, i);
    ExpZero(exp, s[i] - m);
  }

  /** Weights of scores below the maximum are at most one. */
  ghost predicate Decaying(exp: real -> real) {
    forall x {:trigger exp(x)} :: x <= 0.0 ==> exp(x) <= 1.0
  }

  lemma {:induction false} SumBounded(exp: real -> real, s: seq<real>, m: real, lo: nat, hi: nat)
    requires Decaying(exp) && lo <= hi <= |s| && forall i :: lo <= i < hi ==> s[i] <= m
    ensures SumExp(exp, s, m, lo, hi) <= (hi - lo) as real
  {
    if lo < hi { SumBounded(exp, s, m, lo, hi - 1); }
  }

  /** ... and at most the number of positions. */
  lemma SumAtMostCount(exp: real -> real, s: seq<real>, v: seq<Vec>, size: nat, lo: nat, hi: nat)
    requires Decaying(exp) && lo < hi <= |s| == |v| && Sized(v, size)
    ensures Summary(exp, s, v, size, lo, hi).sum <= (hi - lo) as real
  {
    hide Decaying, MaxScore, SumExp, AccExp, Sized;
    MaxScoreIsMax(s, lo, hi);
    SumBounded(exp, s, MaxScore(s, lo, hi).value, lo, hi);
  }

  // ----- the normalised result -----

  /** 1 / sum, with the kernels' fallback. */
  function Reciprocal(sum: real): real {
    if sum > 0.0 then 1.0 / sum else 0.0
  }

  lemma ReciprocalInverts(sum: real)
    ensures sum > 0.0 ==> sum * Reciprocal(sum) == 1.0
    ensures sum <= 0.0 ==> Reciprocal(sum) == 0.0
  {}

  function Normalised(p: Partial): (z: Vec)
    ensures |z| == |p.acc|
  {
    Scale(Reciprocal(p.sum), p.acc)
  }

  /** sum exp(s_i) v_i / sum exp(s_i) over positions [0, n). */
  function Mean(exp: real -> real, s: seq<real>, v: seq<Vec>, size: nat, n: nat): (z: Vec)
    requires Exponential(exp) && 0 < n <= |s| == |v| && Sized(v, size)
    ensures |z| == size
  {
    SumPositive(exp, s, 0.0, 0, n);
    Scale(1.0 / SumExp(exp, s, 0.0, 0, n), AccExp(exp, s, v, size, 0.0, 0, n))
  }

  lemma Ratio(a: real, s: real, e: real, a': real, s': real)
    requires s > 0.0 && e > 0.0 && a' == a * e && s' == s * e
    ensures s' > 0.0 && a' * (1.0 / s') == a * (1.0 / s)
  {
    var q := a * (1.0 / s);
    assert a == q * s;
    assert a' == q * s';
  }

  /** Subtracting the maximum before exponentiating changes nothing. */
  lemma NormalisedIsMean(exp: real -> real, s: seq<real>, v: seq<Vec>, size: nat, n: nat)
    requires Exponential(exp) && 0 < n <= |s| == |v| && Sized(v, size)
    ensures Normalised(Summary(exp, s, v, size, 0, n)) == Mean(exp, s, v, size, n)
  {
    hide Exponential, Scale, MaxScore, SumExp, AccExp, Sized;
    var p := Summary(exp, s, v, size, 0, n);
    SumAtLeastOne(exp, s, v, size, 0, n);
    SummaryAt(exp, s, v, size, 0, n, 0.0);
    SumPositive(exp, s, 0.0, 0, n);
    var e := Fade(exp, p.max, 0.0);
    ExpPositive(exp, p.max.value - 0.0);
    var total := SumExp(exp, s, 0.0, 0, n);
    var acc := AccExp(exp, s, v, size, 0.0, 0, n);
    forall d | 0 <= d < size ensures Normalised(p)[d] == Mean(exp, s, v, size, n)[d] {
      ScaleAt(Reciprocal(p.sum), p.acc, d);
      ScaleAt(1.0 / total, acc, d);
      ScaleAt(e, p.acc, d);
      hide *;
      Ratio(p.acc[d], p.sum, e, acc[d], total);
    }
  }

  lemma WeighBetween(a: real, b: real, x: real, w: real, acc: real, sum: real)
    requires w >= 0.0 && a <= x <= b && a * sum <= acc <= b * sum
    ensures a * (sum + w) <= acc + w * x <= b * (sum + w)
  {
    assert w * a <= w * x;
    assert w * x <= w * b;
    assert a * (sum + w) == a * sum + w * a;
    assert b * (sum + w) == b * sum + w * b;
  }

  lemma {:induction false} AccBetween(exp: real -> real, s: seq<real>, v: seq<Vec>, size: nat, m: real, lo: nat,
                                      hi: nat, d: nat, a: real, b: real)
    requires Exponential(exp) && lo <= hi <= |s| == |v| && Sized(v, size) && d < size
    requires forall i :: lo <= i < hi ==> a <= v[i][d] <= b
    ensures a * SumExp(exp, s, m, lo, hi) <= AccExp(exp, s, v, size, m, lo, hi)[d] <= b * SumExp(exp, s, m, lo, hi)
  {
    hide Exponential, Axpy;
    if lo < hi {
      AccBetween(exp, s, v, size, m, lo, hi - 1, d, a, b);
      var w := exp(s[hi - 1] - m);
      ExpPositive(exp, s[hi - 1] - m);
      var acc := AccExp(exp, s, v, size, m, lo, hi - 1);
      AxpyAt(w, v[hi - 1], acc, d);
      WeighBetween(a, b, v[hi - 1][d], w, acc[d], SumExp(exp, s, m, lo, hi - 1));
    }
  }

  lemma ProductOrders(x: real, y: real, f: real)
    requires f > 0.0
    ensures x < y ==> x * f < y * f
  {}

  lemma DivideBetween(a: real, b: real, acc: real, sum: real)
    requires sum > 0.0 && a * sum <= acc <= b * sum
    ensures a <= acc * (1.0 / sum) <= b
  {
    var q := acc * (1.0 / sum);
    assert acc == q * sum;
    ProductOrders(q, a, sum);
    ProductOrders(b, q, sum);
  }

  /** Attention is an average: each coordinate stays between the bounds of that coordinate of V. */
  lemma MeanIsBetween(exp: real -> real, s: seq<real>, v: seq<Vec>, size: nat, n: nat, d: nat, a: real, b: real)
    requires Exponential(exp) && 0 < n <= |s| == |v| && Sized(v, size) && d < size
    requires forall i :: 0 <= i < n ==> a <= v[i][d] <= b
    ensures a <= Mean(exp, s, v, size, n)[d] <= b
  {
    hide Exponential, Scale, SumExp, AccExp;
    SumPositive(exp, s, 0.0, 0, n);
    var sum, acc := SumExp(exp, s, 0.0, 0, n), AccExp(exp, s, v, size, 0.0, 0, n);
    AccBetween(exp, s, v, size, 0.0, 0, n, d, a, b);
    ScaleAt(1.0 / sum, acc, d);
    assert Mean(exp, s, v, size, n)[d] == acc[d] * (1.0 / sum);
    hide *;
    DivideBetween(a, b, acc[d], sum);
  }

  // ----- per token and head -----

  function Attend(exp: real -> real, l: Launch, token: nat, head: nat): (z: Vec)
    requires Exponential(exp) && l.Valid() && token < l.tokens && head < l.heads && Length(l, token) <= l.capacity
    ensures |z| == l.dim
  {
    var n := Length(l, token);
    Mean(exp, Scores(l, token, head, n), Values(l, head, n), l.dim, n)
  }

  /** The whole causal prefix, normalised, is the attention. */
  lemma ExactIsAttend(exp: real -> real, l: Launch, token: nat, head: nat)
    requires Exponential(exp) && l.Valid() && token < l.tokens && head < l.heads && Length(l, token) <= l.capacity
    ensures Normalised(Exact(exp, l, token, head, 0, Length(l, token))) == Attend(exp, l, token, head)
  {
    hide Exponential, Score, ValueRow, Summary, Normalised, Mean;
    var n := Length(l, token);
    NormalisedIsMean(exp, Scores(l, token, head, n), Values(l, head, n), l.dim, n);
  }

  lemma AttendIsBetween(exp: real -> real, l: Launch, token: nat, head: nat, d: nat, a: real, b: real)
    requires Exponential(exp) && l.Valid() && token < l.tokens && head < l.heads && Length(l, token) <= l.capacity
    requires d < l.dim
    requires forall pos :: 0 <= pos < Length(l, token) ==> a <= ValueRow(l, KvHead(l, head), pos)[d] <= b
    ensures a <= Attend(exp, l, token, head)[d] <= b
  {
    hide Exponential, Score, ValueRow, KvHead, Mean;
    var n := Length(l, token);
    MeanIsBetween(exp, Scores(l, token, head, n), Values(l, head, n), l.dim, n, d, a, b);
  }

  // ----- the gate -----

  /** The gate buffer may be absent. */
  ghost predicate GateFits(gate: Option<Vec>, l: Launch) {
    gate.Some? ==> |gate.value| == |l.query|
  }

  function Sigmoid(exp: real -> real, x: real): (y: real)
    requires Exponential(exp)
    ensures 0.0 < y < 1.0
  {
    ExpPositive(exp, -x);
    UnitFraction(1.0 + exp(-x));
    1.0 / (1.0 + exp(-x))
  }

  /** The odds of the gate are exp(x), which fixes its value. */
  lemma SigmoidOdds(exp: real -> real, x: real)
    requires Exponential(exp)
    ensures Sigmoid(exp, x) == (1.0 - Sigmoid(exp, x)) * exp(x)
  {
    var e, i := exp(x), exp(-x);
    ExpPositive(exp, -x);
    ExpSum(exp, x, -x, 0.0);
    ExpZero(exp, 0.0);
    hide Exponential;
    assert Sigmoid(exp, x) == 1.0 / (1.0 + i);
    hide *;
    Odds(1.0 / (1.0 + i), e, i);
  }

  lemma Odds(y: real, e: real, i: real)
    requires i > 0.0 && e * i == 1.0 && y == 1.0 / (1.0 + i)
    ensures y == (1.0 - y) * e
  {
    assert y * (1.0 + i) == 1.0;
    assert 1.0 - y == y * i;
    assert y * i * e == y * (e * i);
  }

  lemma UnitFraction(q: real)
    requires q > 1.0
    ensures 0.0 < 1.0 / q < 1.0
  {}

  function OutputRow(l: Launch, token: nat, head: nat): nat {
    At(At(token, head, l.heads), 0, l.dim)
  }

  lemma OutputInside(l: Launch, token: nat, head: nat)
    requires l.Valid() && token < l.tokens && head < l.heads
    ensures OutputRow(l, token, head) + l.dim <= |l.query|
  {
    RowInside(token, l.tokens, head, l.heads, l.dim);
  }

  /** One output cell. */
  function GatedCell(exp: real -> real, l: Launch, gate: Option<Vec>, token: nat, head: nat, x: real, d: nat): real
    requires Exponential(exp) && l.Valid() && GateFits(gate, l) && token < l.tokens && head < l.heads && d < l.dim
  {
    OutputInside(l, token, head);
    if gate.None? then x else x * Sigmoid(exp, gate.value[OutputRow(l, token, head) + d])
  }

  /** y is x under the gate in cell i: x itself without a gate, and otherwise x split between y and
      the rest as exp(g) to 1. */
  ghost predicate GatedBy(exp: real -> real, gate: Option<Vec>, i: int, x: real, y: real) {
    match gate
    case None => y == x
    case Some(g) => 0 <= i < |g| && y == (x - y) * exp(g[i])
  }

  lemma OutputAddress(l: Launch, token: nat, head: nat, d: nat)
    ensures OutputRow(l, token, head) + d == (token * l.heads + head) * l.dim + d
  {}

  /** The gated cell, at the source's address of the gate. */
  lemma CellIsGated(exp: real -> real, l: Launch, gate: Option<Vec>, token: nat, head: nat, x: real, d: nat)
    requires Exponential(exp) && l.Valid() && GateFits(gate, l) && token < l.tokens && head < l.heads && d < l.dim
    ensures GatedBy(exp, gate, (token * l.heads + head) * l.dim + d, x, GatedCell(exp, l, gate, token, head, x, d))
  {
    OutputInside(l, token, head);
    OutputAddress(l, token, head, d);
    hide Exponential, OutputRow, Sigmoid;
    if gate.Some? {
      var g := gate.value[OutputRow(l, token, head) + d];
      SigmoidOdds(exp, g);
      Share(x, Sigmoid(exp, g), exp(g));
    }
  }

  lemma Share(x: real, y: real, e: real)
    requires y == (1.0 - y) * e
    ensures x * y == (x - x * y) * e
  {
    assert x * ((1.0 - y) * e) == (x - x * y) * e;
  }

  function Gated(exp: real -> real, l: Launch, gate: Option<Vec>, token: nat, head: nat, x: Vec): (z: Vec)
    requires Exponential(exp) && l.Valid() && GateFits(gate, l) && token < l.tokens && head < l.heads && |x| == l.dim
    ensures |z| == l.dim
    ensures forall d :: 0 <= d < l.dim ==> z[d] == GatedCell(exp, l, gate, token, head, x[d], d)
  {
    seq(l.dim, d requires 0 <= d < l.dim => GatedCell(exp, l, gate, token, head, x[d], d))
  }

  /** The output row of one token and head holds gated attention. */
  ghost predicate RowDone(exp: real -> real, l: Launch, gate: Option<Vec>, output: seq<real>, token: nat, head: nat)
    requires Exponential(exp) && l.Valid() && GateFits(gate, l) && token < l.tokens && head < l.heads
    requires Length(l, token) <= l.capacity
    requires |output| == |l.query|
  {
    OutputInside(l, token, head);
    output[OutputRow(l, token, head)..OutputRow(l, token, head) + l.dim]
      == Gated(exp, l, gate, token, head, Attend(exp, l, token, head))
  }

  ghost predicate OtherRowsKept(l: Launch, was: seq<real>, now: seq<real>, token: nat, head: nat) {
    |was| == |now|
    && forall i {:trigger now[i]} ::
      0 <= i < |now| && !(OutputRow(l, token, head) <= i < OutputRow(l, token, head) + l.dim) ==>
      now[i] == was[i]
  }

  /** Write one gated output row. */
  method StoreRow(exp: real -> real, l: Launch, gate: Option<Vec>, output: array<real>, token: nat, head: nat, x: Vec)
    requires Exponential(exp) && l.Valid() && GateFits(gate, l) && token < l.tokens && head < l.heads && |x| == l.dim
    requires output.Length == |l.query|
    modifies output
    ensures OutputRow(l, token, head) + l.dim <= output.Length
    ensures output[OutputRow(l, token, head)..OutputRow(l, token, head) + l.dim] == Gated(exp, l, gate, token, head, x)
    ensures forall d {:trigger x[d]} :: 0 <= d < l.dim ==>
      CellStored(exp, l, gate, output[..], token, head, d, x[d])
    ensures OtherRowsKept(l, old(output[..]), output[..], token, head)
  {
    hide Exponential, GateFits, GatedCell, OutputRow, CellStored;
    OutputInside(l, token, head);
    var row := OutputRow(l, token, head);
    ghost var was := output[..];
    ghost var done := Gated(exp, l, gate, token, head, x);
    for d := 0 to l.dim
      invariant forall i :: 0 <= i < output.Length ==>
        output[i] == if row <= i < row + d then done[i - row] else was[i]
    {
      output[row + d] := GatedCell(exp, l, gate, token, head, x[d], d);
    }
    forall d {:trigger x[d]} | 0 <= d < l.dim ensures CellStored(exp, l, gate, output[..], token, head, d, x[d]) {
      StoredIs(exp, l, gate, output[..], token, head, x, d);
    }
  }

  /** Cell d of the row holds x under the gate, at the source's addresses. */
  ghost predicate CellStored(exp: real -> real, l: Launch, gate: Option<Vec>, output: seq<real>, token: nat, head: nat,
                             d: nat, x: real)
  {
    var i := (token * l.heads + head) * l.dim + d;
    0 <= i < |output| && GatedBy(exp, gate, i, x, output[i])
  }

  lemma StoredIs(exp: real -> real, l: Launch, gate: Option<Vec>, output: seq<real>, token: nat, head: nat, x: Vec,
                 d: nat)
    requires Exponential(exp) && l.Valid() && GateFits(gate, l) && token < l.tokens && head < l.heads && |x| == l.dim
    requires d < l.dim && OutputRow(l, token, head) + l.dim <= |output|
    requires output[OutputRow(l, token, head)..OutputRow(l, token, head) + l.dim] == Gated(exp, l, gate, token, head, x)
    ensures CellStored(exp, l, gate, output, token, head, d, x[d])
  {
    hide Exponential, GateFits, GatedCell, OutputRow, GatedBy;
    var row := OutputRow(l, token, head);
    assert output[row..row + l.dim][d] == output[row + d];
    OutputAddress(l, token, head, d);
    CellIsGated(exp, l, gate, token, head, x[d], d);
  }
}
