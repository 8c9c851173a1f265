/** Why a whole chunk can be processed at once: the corrections of a chunk solve one
    unit lower-triangular system that mentions only the state at the start of the chunk. */
module GdnChunk {
  import opened LinearAlgebra
  import opened GdnRecurrence
  import opened TriangularSystem

  /** Row r of the strictly lower system: beta_r * (k_r . k_c) * decay from c to r. */
  function SystemRow(tokens: seq<Token>, size: nat, r: nat): (w: Vec)
    requires Uniform(tokens, size) && r < |tokens|
    ensures |w| == r
    ensures forall c :: 0 <= c < r ==>
      w[c] == tokens[r].beta * Dot(tokens[r].key, tokens[c].key, size) * Decay(tokens, c + 1, r + 1)
  {
    seq(r, c requires 0 <= c < r =>
      tokens[r].beta * Dot(tokens[r].key, tokens[c].key, size) * Decay(tokens, c + 1, r + 1))
  }

  /** beta_r * v_r */
  function GatedValues(tokens: seq<Token>): (b: Vec)
    ensures |b| == |tokens|
    ensures forall r :: 0 <= r < |tokens| ==> b[r] == tokens[r].value * tokens[r].beta
  {
    seq(|tokens|, r requires 0 <= r < |tokens| => tokens[r].value * tokens[r].beta)
  }

  /** beta_r * (decay up to and including r) * k_r */
  function DecayedKey(tokens: seq<Token>, size: nat, r: nat): (k: Vec)
    requires Uniform(tokens, size) && r < |tokens|
    ensures |k| == size
    ensures forall d :: 0 <= d < size ==>
      k[d] == tokens[r].key[d] * tokens[r].beta * Decay(tokens, 0, r + 1)
  {
    seq(size, d requires 0 <= d < size => tokens[r].key[d] * tokens[r].beta * Decay(tokens, 0, r + 1))
  }

  function DecayedKeys(tokens: seq<Token>, size: nat): (ks: seq<Vec>)
    requires Uniform(tokens, size)
    ensures |ks| == |tokens|
    ensures forall r :: 0 <= r < |tokens| ==> ks[r] == DecayedKey(tokens, size, r) && |ks[r]| == size
  {
    seq(|tokens|, r requires 0 <= r < |tokens| => DecayedKey(tokens, size, r))
  }

  /** The right-hand side of the system, from the values, the keys and the starting column. */
  function RightSide(column: Vec, tokens: seq<Token>): (b: Vec)
    requires Uniform(tokens, |column|)
    ensures |b| == |tokens|
    ensures forall r :: 0 <= r < |tokens| ==>
      b[r] == GatedValues(tokens)[r] - Dot(DecayedKey(tokens, |column|, r), column, |column|)
  {
    seq(|tokens|, r requires 0 <= r < |tokens| =>
      GatedValues(tokens)[r] - Dot(DecayedKey(tokens, |column|, r), column, |column|))
  }

  /** `rows` agrees with the chunk's system below the diagonal. */
  ghost predicate IsSystem(rows: seq<Vec>, tokens: seq<Token>, size: nat)
    requires Uniform(tokens, size)
  {
    && Square(rows, |tokens|)
    && forall r, c {:trigger rows[r][c]} :: 0 <= c < r < |tokens| ==> rows[r][c] == SystemRow(tokens, size, r)[c]
  }

  lemma DecayedKeyDot(column: Vec, tokens: seq<Token>, r: nat)
    requires Uniform(tokens, |column|) && r < |tokens|
    ensures Dot(DecayedKey(tokens, |column|, r), column, |column|)
         == tokens[r].beta * Decay(tokens, 0, r + 1) * Dot(tokens[r].key, column, |column|)
  {
    hide *;
    UniformAt(tokens, |column|, r);
    var k, beta, d := tokens[r].key, tokens[r].beta, Decay(tokens, 0, r + 1);
    forall i | 0 <= i < |column|
      ensures DecayedKey(tokens, |column|, r)[i] == Scale(beta * d, k)[i]
    {
      ScaleAt(beta * d, k, i);
      Regroup(k[i], beta, d, 1.0);
    }
    assert DecayedKey(tokens, |column|, r) == Scale(beta * d, k);
    DotScale(beta * d, k, column, |column|);
  }

  /** Row r of the system is the faded key readings, scaled by beta and one more decay. */
  lemma SystemRowIsFaded(tokens: seq<Token>, size: nat, r: nat, w: real)
    requires Uniform(tokens, size) && r < |tokens| && w == tokens[r].beta * tokens[r].decay
    ensures SystemRow(tokens, size, r) == Scale(w, Faded(tokens, KeyDots(tokens, tokens[r].key), r))
  {
    var z := tokens[r].key;
    var x := KeyDots(tokens, z);
    forall c | 0 <= c < r
      ensures SystemRow(tokens, size, r)[c] == Scale(w, Faded(tokens, x, r))[c]
    {
      DotCommutes(z, tokens[c].key, size);
      DecaySnoc(tokens, c + 1, r + 1);
      Regroup(tokens[r].beta, x[c], tokens[r].decay, Decay(tokens, c + 1, r));
    }
  }

  lemma Regroup(a: real, b: real, c: real, d: real)
    ensures a * b * (c * d) == a * c * (d * b)
    ensures a * b * (c * d) == b * (c * d) * a
  {}

  lemma CorrectionAlgebra(v: real, g: real, beta: real, d0: real, s0: real, f: real, w: real)
    requires w == beta * g
    ensures (v - g * (d0 * s0 + f)) * beta + w * f == v * beta - beta * (g * d0) * s0
  {
    assert g * (d0 * s0 + f) == g * d0 * s0 + g * f;
  }

  lemma DeltaFromProjection(column: Vec, token: Token, p: real)
    requires |token.key| == |column| && p == Dot(column, token.key, |column|)
    ensures Delta(column, token) == (token.value - token.decay * p) * token.beta
  {
    DotScale(token.decay, column, token.key, |column|);
  }

  lemma RightSideAt(column: Vec, tokens: seq<Token>, r: nat)
    requires Uniform(tokens, |column|) && r < |tokens|
    ensures RightSide(column, tokens)[r]
         == tokens[r].value * tokens[r].beta
            - tokens[r].beta * (tokens[r].decay * Decay(tokens, 0, r)) * Dot(column, tokens[r].key, |column|)
  {
    hide *;
    UniformAt(tokens, |column|, r);
    DecayedKeyDot(column, tokens, r);
    DecaySnoc(tokens, 0, r + 1);
    DotCommutes(tokens[r].key, column, |column|);
  }

  /** The corrections of a run solve the chunk's system, row by row. */
  lemma DeltaEquation(column: Vec, tokens: seq<Token>, r: nat)
    requires Uniform(tokens, |column|) && r < |tokens|
    ensures Delta(Run(column, tokens, r), tokens[r])
            + Dot(SystemRow(tokens, |column|, r), Deltas(column, tokens, r), r)
         == RightSide(column, tokens)[r]
  {
    hide *;
    UniformAt(tokens, |column|, r);
    var z, g, beta := tokens[r].key, tokens[r].decay, tokens[r].beta;
    var u, faded := Deltas(column, tokens, r), Faded(tokens, KeyDots(tokens, z), r);
    var d0, s0, f, w := Decay(tokens, 0, r), Dot(column, z, |column|), Dot(faded, u, r), beta * g;
    ProjectionClosedForm(column, tokens, z, r);
    DeltaFromProjection(Run(column, tokens, r), tokens[r], d0 * s0 + f);
    SystemRowIsFaded(tokens, |column|, r, w);
    DotScale(w, faded, u, r);
    RightSideAt(column, tokens, r);
    CorrectionAlgebra(tokens[r].value, g, beta, d0, s0, f, w);
  }

  lemma DeltasSolve(column: Vec, tokens: seq<Token>, rows: seq<Vec>)
    requires Uniform(tokens, |column|) && IsSystem(rows, tokens, |column|)
    ensures Solves(rows, Deltas(column, tokens, |tokens|), RightSide(column, tokens), |tokens|)
  {
    var n, u, b := |tokens|, Deltas(column, tokens, |tokens|), RightSide(column, tokens);
    forall r | 0 <= r < n ensures u[r] + Dot(rows[r], u, r) == b[r] {
      DeltaEquation(column, tokens, r);
      DotCongruence(rows[r], SystemRow(tokens, |column|, r), u, Deltas(column, tokens, r), r);
    }
  }

  /** What the program computes for one row: the solved values less the solved keys' view of
      the starting column, each summed only up to the diagonal. */
  function Corrected(column: Vec, tokens: seq<Token>, inverse: seq<Vec>, r: nat): real
    requires Uniform(tokens, |column|) && Square(inverse, |tokens|) && r < |tokens|
  {
    Dot(inverse[r], GatedValues(tokens), r + 1)
    - Dot(Combination(inverse[r], DecayedKeys(tokens, |column|), |column|, r + 1), column, |column|)
  }

  lemma {:induction false} DotDifference(w: Vec, x: Vec, y: Vec, z: Vec, n: nat)
    requires n <= |w| && n <= |x| && n <= |y| && n <= |z|
    requires forall i :: 0 <= i < n ==> z[i] == x[i] - y[i]
    ensures Dot(w, z, n) == Dot(w, x, n) - Dot(w, y, n)
  {
    if n != 0 {
      DotDifference(w, x, y, z, n - 1);
      assert w[n - 1] * z[n - 1] == w[n - 1] * x[n - 1] - w[n - 1] * y[n - 1];
    }
  }

  lemma CorrectedIsRightSide(column: Vec, tokens: seq<Token>, inverse: seq<Vec>, r: nat)
    requires Uniform(tokens, |column|) && Square(inverse, |tokens|) && r < |tokens|
    ensures Corrected(column, tokens, inverse, r) == Dot(inverse[r], RightSide(column, tokens), r + 1)
  {
    hide Dot, DecayedKey, Combination;
    var keys := DecayedKeys(tokens, |column|);
    var p := Projections(keys, column, r + 1);
    DotCombination(inverse[r], keys, column, r + 1);
    DotDifference(inverse[r], GatedValues(tokens), p, RightSide(column, tokens), r + 1);
  }

  /** The corrections computed from the chunk's start are those the token recurrence writes. */
  lemma CorrectedIsDelta(column: Vec, tokens: seq<Token>, rows: seq<Vec>, inverse: seq<Vec>, r: nat)
    requires Uniform(tokens, |column|) && IsSystem(rows, tokens, |column|) && r < |tokens|
    requires Square(inverse, |tokens|) && UnitLower(inverse, |tokens|) && RightInverse(rows, inverse, |tokens|)
    ensures Corrected(column, tokens, inverse, r) == Delta(Run(column, tokens, r), tokens[r])
  {
    var n, b := |tokens|, RightSide(column, tokens);
    var u, y := Deltas(column, tokens, n), Apply(inverse, b);
    CorrectedIsRightSide(column, tokens, inverse, r);
    PrefixSuffices(inverse, b, r);
    DeltasSolve(column, tokens, rows);
    InverseSolves(rows, inverse, b);
    SolutionIsUnique(rows, u, y, b, n);
    assert u[..n][r] == y[..n][r];
  }

  // ----- outputs and the state update -----

  /** Row r of the intra-chunk weights: (q_r . k_s) * decay from s to r * scale, for s <= r. */
  function IntraRow(tokens: seq<Token>, size: nat, scale: real, r: nat): (w: Vec)
    requires Uniform(tokens, size) && r < |tokens|
    ensures |w| == r + 1
    ensures forall s :: 0 <= s <= r ==>
      w[s] == Dot(tokens[r].query, tokens[s].key, size) * Decay(tokens, s + 1, r + 1) * scale
  {
    seq(r + 1, s requires 0 <= s <= r =>
      Dot(tokens[r].query, tokens[s].key, size) * Decay(tokens, s + 1, r + 1) * scale)
  }

  lemma IntraRowIsFaded(tokens: seq<Token>, size: nat, scale: real, r: nat)
    requires Uniform(tokens, size) && r < |tokens|
    ensures IntraRow(tokens, size, scale, r) == Scale(scale, Faded(tokens, KeyDots(tokens, tokens[r].query), r + 1))
  {
    var z := tokens[r].query;
    forall s | 0 <= s <= r
      ensures IntraRow(tokens, size, scale, r)[s] == Scale(scale, Faded(tokens, KeyDots(tokens, z), r + 1))[s]
    {
      DotCommutes(z, tokens[s].key, size);
    }
  }

  lemma EmitFromProjection(column: Vec, tokens: seq<Token>, t: nat, scale: real, p: real)
    requires t < |tokens| && Uniform(tokens, |column|)
    requires p == Dot(Run(column, tokens, t + 1), tokens[t].query, |column|)
    ensures Emit(column, tokens, t, scale) == p * scale
  {
    hide Run, Dot, Uniform;
  }

  lemma ScaledSum(scale: real, d: real, w: real, s0: real, s0': real, f: real)
    requires w == scale * d && s0 == s0'
    ensures w * s0' + scale * f == (d * s0 + f) * scale
  {}

  lemma IntraDot(column: Vec, tokens: seq<Token>, u: Vec, scale: real, r: nat)
    requires Uniform(tokens, |column|) && r < |tokens|
    requires AreDeltas(u, column, tokens, r + 1)
    ensures Dot(IntraRow(tokens, |column|, scale, r), u, r + 1)
         == scale * Dot(Faded(tokens, KeyDots(tokens, tokens[r].query), r + 1), Deltas(column, tokens, r + 1), r + 1)
  {
    hide *;
    UniformAt(tokens, |column|, r);
    DeltasAgree(column, tokens, u, r + 1);
    var faded, deltas := Faded(tokens, KeyDots(tokens, tokens[r].query), r + 1), Deltas(column, tokens, r + 1);
    IntraRowIsFaded(tokens, |column|, scale, r);
    DotCongruence(Scale(scale, faded), Scale(scale, faded), u, deltas, r + 1);
    DotScale(scale, faded, deltas, r + 1);
  }

  /** The chunk's output for row r: the decayed start read by the scaled query, plus the
      intra-chunk weights applied to the corrections. */
  lemma OutputIsEmit(column: Vec, tokens: seq<Token>, u: Vec, scale: real, r: nat, w: real)
    requires Uniform(tokens, |column|) && r < |tokens|
    requires AreDeltas(u, column, tokens, r + 1)
    requires w == scale * Decay(tokens, 0, r + 1)
    ensures w * Dot(tokens[r].query, column, |column|)
            + Dot(IntraRow(tokens, |column|, scale, r), u, r + 1)
         == Emit(column, tokens, r, scale)
  {
    hide *;
    UniformAt(tokens, |column|, r);
    var z, d := tokens[r].query, Decay(tokens, 0, r + 1);
    var s0 := Dot(column, z, |column|);
    var f := Dot(Faded(tokens, KeyDots(tokens, z), r + 1), Deltas(column, tokens, r + 1), r + 1);
    DotCommutes(z, column, |column|);
    IntraDot(column, tokens, u, scale, r);
    ProjectionClosedForm(column, tokens, z, r + 1);
    EmitFromProjection(column, tokens, r, scale, d * s0 + f);
    ScaledSum(scale, d, w, s0, Dot(z, column, |column|), f);
  }

  lemma DeltasAgree(column: Vec, tokens: seq<Token>, u: Vec, n: nat)
    requires n <= |tokens| && Uniform(tokens, |column|) && AreDeltas(u, column, tokens, n)
    ensures n <= |u| && u[..n] == Deltas(column, tokens, n)
    ensures forall s :: 0 <= s < n ==> u[s] == Deltas(column, tokens, n)[s]
  {
    var deltas := Deltas(column, tokens, n);
    forall s | 0 <= s < n ensures u[s] == deltas[s] {
      hide Delta, Run;
    }
  }

  /** The single state update of a chunk lands on the state after its last token. */
  lemma UpdateIsRun(column: Vec, tokens: seq<Token>, u: Vec, c: nat, x: real, d: real)
    requires Uniform(tokens, |column|) && c < |column|
    requires |u| == |tokens| && AreDeltas(u, column, tokens, |tokens|)
    requires x == column[c] && d == Decay(tokens, 0, |tokens|)
    ensures x * d + Dot(Faded(tokens, KeyEntries(tokens, |column|, c), |tokens|), u, |tokens|)
         == Run(column, tokens, |tokens|)[c]
  {
    hide *;
    DeltasWhole(column, tokens, u);
    StateClosedForm(column, tokens, c, |tokens|);
    SumCongruence(x, d, column[c], Decay(tokens, 0, |tokens|),
                  Dot(Faded(tokens, KeyEntries(tokens, |column|, c), |tokens|), u, |tokens|));
  }

  lemma DeltasWhole(column: Vec, tokens: seq<Token>, u: Vec)
    requires Uniform(tokens, |column|) && |u| == |tokens| && AreDeltas(u, column, tokens, |tokens|)
    ensures u == Deltas(column, tokens, |tokens|)
  {
    hide *;
    DeltasAgree(column, tokens, u, |tokens|);
    assert u[..|u|] == u;
  }

  lemma SumCongruence(x: real, d: real, x': real, d': real, f: real)
    requires x == x' && d == d'
    ensures x * d + f == d' * x' + f
  {}
}
