/** The gated delta rule seen from one column of one head's state matrix.

    A head's state is a matrix whose columns (one for each value dimension) evolve
    independently: every token decays the column, reads it with the key, writes a
    rank-one correction along the key, and reads it with the query. */
module GdnRecurrence {
  import opened LinearAlgebra

  /** What one token contributes to one state column. */
  datatype Token = Token(decay: real, beta: real, value: real, key: Vec, query: Vec)

  ghost predicate Uniform(tokens: seq<Token>, size: nat) {
    forall t :: 0 <= t < |tokens| ==> |tokens[t].key| == size && |tokens[t].query| == size
  }

  /** The correction a token writes: the value it carries, less what the decayed state
      already predicts for its key, gated by beta. */
  function Delta(column: Vec, token: Token): real
    requires |token.key| == |column|
  {
    (token.value - Dot(Scale(token.decay, column), token.key, |column|)) * token.beta
  }

  function Step(column: Vec, token: Token): (r: Vec)
    requires |token.key| == |column|
    ensures |r| == |column|
  {
    Axpy(Delta(column, token), token.key, Scale(token.decay, column))
  }

  /** The column after the first `n` tokens. */
  function Run(column: Vec, tokens: seq<Token>, n: nat): (r: Vec)
    requires n <= |tokens| && Uniform(tokens, |column|)
    ensures |r| == |column|
  {
    if n == 0 then column else Step(Run(column, tokens, n - 1), tokens[n - 1])
  }

  /** The scaled query's view of a column. */
  function ReadOut(column: Vec, query: Vec, scale: real): real
    requires |query| == |column|
  {
    Dot(column, query, |column|) * scale
  }

  /** What token `t` emits for this column: the query's view of the updated column. */
  function Emit(column: Vec, tokens: seq<Token>, t: nat, scale: real): real
    requires t < |tokens| && Uniform(tokens, |column|)
  {
    ReadOut(Run(column, tokens, t + 1), tokens[t].query, scale)
  }

  lemma EmitIsReadOut(column: Vec, tokens: seq<Token>, t: nat, scale: real)
    requires t < |tokens| && Uniform(tokens, |column|)
    ensures |tokens[t].query| == |column|
    ensures Emit(column, tokens, t, scale) == ReadOut(Run(column, tokens, t + 1), tokens[t].query, scale)
  {}

  /** Running `m` tokens and then the rest from the carried column is one run. */
  lemma {:induction false} RunSplits(column: Vec, tokens: seq<Token>, m: nat, n: nat)
    requires m + n <= |tokens| && Uniform(tokens, |column|)
    ensures Uniform(tokens[m..], |column|)
    ensures Run(Run(column, tokens, m), tokens[m..], n) == Run(column, tokens, m + n)
  {
    hide Step, Delta;
    if n != 0 {
      RunSplits(column, tokens, m, n - 1);
      assert tokens[m..][n - 1] == tokens[m + n - 1];
    }
  }

  /** ... and it emits the same outputs along the way. */
  lemma EmitSplits(column: Vec, tokens: seq<Token>, m: nat, t: nat, scale: real)
    requires m + t < |tokens| && Uniform(tokens, |column|)
    ensures Uniform(tokens[m..], |column|)
    ensures Emit(Run(column, tokens, m), tokens[m..], t, scale) == Emit(column, tokens, m + t, scale)
  {
    hide Step, ReadOut;
    RunSplits(column, tokens, m, t + 1);
    assert tokens[m..][t] == tokens[m + t];
  }

  /** A run depends only on the tokens it consumes. */
  lemma {:induction false} RunPrefix(column: Vec, tokens: seq<Token>, tokens': seq<Token>, n: nat)
    requires n <= |tokens| && n <= |tokens'|
    requires Uniform(tokens, |column|) && Uniform(tokens', |column|)
    requires forall t :: 0 <= t < n ==> tokens[t] == tokens'[t]
    ensures Run(column, tokens, n) == Run(column, tokens', n)
  {
    hide Step, Delta;
    if n != 0 { RunPrefix(column, tokens, tokens', n - 1); }
  }

  // ----- the closed form of a run -----

  /** The product of the decays of the tokens in [lo, hi). */
  function Decay(tokens: seq<Token>, lo: nat, hi: nat): real
    requires lo <= hi <= |tokens|
  {
    if lo == hi then 1.0 else tokens[hi - 1].decay * Decay(tokens, lo, hi - 1)
  }

  lemma DecaySnoc(tokens: seq<Token>, lo: nat, hi: nat)
    requires lo < hi <= |tokens|
    ensures Decay(tokens, lo, hi) == tokens[hi - 1].decay * Decay(tokens, lo, hi - 1)
  {}

  lemma DecayEmpty(tokens: seq<Token>, n: nat)
    requires n <= |tokens|
    ensures Decay(tokens, n, n) == 1.0
  {}

  lemma UniformAt(tokens: seq<Token>, size: nat, t: nat)
    requires Uniform(tokens, size) && t < |tokens|
    ensures |tokens[t].key| == size && |tokens[t].query| == size
  {}

  /** The corrections written by the first `n` tokens. */
  function Deltas(column: Vec, tokens: seq<Token>, n: nat): (u: Vec)
    requires n <= |tokens| && Uniform(tokens, |column|)
    ensures |u| == n && AreDeltas(u, column, tokens, n)
  {
    seq(n, t requires 0 <= t < n => Delta(Run(column, tokens, t), tokens[t]))
  }

  /** How much a linear reading `x[s]` of each key weighs after `n` tokens. */
  function Faded(tokens: seq<Token>, x: Vec, n: nat): (w: Vec)
    requires n <= |tokens| && n <= |x|
    ensures |w| == n
    ensures forall s :: 0 <= s < n ==> w[s] == Decay(tokens, s + 1, n) * x[s]
  {
    seq(n, s requires 0 <= s < n => Decay(tokens, s + 1, n) * x[s])
  }

  /** A linear reading of the run: it decays like the column and sees each key as `x[s]`. */
  function Reading(tokens: seq<Token>, u: Vec, x: Vec, start: real, n: nat): real
    requires n <= |tokens| && n <= |x| && n <= |u|
  {
    if n == 0 then start
    else tokens[n - 1].decay * Reading(tokens, u, x, start, n - 1) + u[n - 1] * x[n - 1]
  }

  lemma ReadingUnfold(tokens: seq<Token>, u: Vec, x: Vec, start: real, n: nat, before: real)
    requires 0 < n <= |tokens| && n <= |x| && n <= |u| && before == Reading(tokens, u, x, start, n - 1)
    ensures Reading(tokens, u, x, start, n) == tokens[n - 1].decay * before + u[n - 1] * x[n - 1]
  {}

  /** One more token fades every earlier reading once more and adds its own unfaded. */
  lemma FadedDot(tokens: seq<Token>, x: Vec, u: Vec, n: nat)
    requires 0 < n <= |tokens| && n <= |x| && n <= |u|
    ensures Dot(Faded(tokens, x, n), u, n)
         == tokens[n - 1].decay * Dot(Faded(tokens, x, n - 1), u, n - 1) + x[n - 1] * u[n - 1]
  {
    hide *;
    var g, before, after := tokens[n - 1].decay, Faded(tokens, x, n - 1), Faded(tokens, x, n);
    forall s | 0 <= s < n - 1 ensures after[s] == Scale(g, before)[s] {
      DecaySnoc(tokens, s + 1, n);
      ScaleAt(g, before, s);
      FadeOnce(g, Decay(tokens, s + 1, n - 1), x[s]);
    }
    DotCongruence(after, Scale(g, before), u, u, n - 1);
    DotScale(g, before, u, n - 1);
    DotUnfold(after, u, n);
    DecayEmpty(tokens, n);
    assert after[n - 1] == x[n - 1];
    SameProduct(after[n - 1], u[n - 1], x[n - 1], u[n - 1]);
  }

  lemma FadeOnce(g: real, d: real, x: real)
    ensures (g * d) * x == (d * x) * g
  {}

  lemma FadeAll(g: real, d: real, start: real, f: real, u: real, x: real, r: real, gd: real)
    requires r == d * start + f && gd == g * d
    ensures g * r + u * x == gd * start + (g * f + x * u)
  {}

  /** Unrolling a reading: the decayed start plus every correction, faded by the decays after it. */
  lemma {:induction false} ReadingClosedForm(tokens: seq<Token>, u: Vec, x: Vec, start: real, n: nat)
    requires n <= |tokens| && n <= |x| && n <= |u|
    ensures Reading(tokens, u, x, start, n)
         == Decay(tokens, 0, n) * start + Dot(Faded(tokens, x, n), u, n)
  {
    hide *;
    if n == 0 {
      ReadingEmpty(tokens, u, x, start);
    } else {
      ReadingClosedForm(tokens, u, x, start, n - 1);
      var before := Reading(tokens, u, x, start, n - 1);
      ReadingUnfold(tokens, u, x, start, n, before);
      FadedDot(tokens, x, u, n);
      DecaySnoc(tokens, 0, n);
      FadeAll(tokens[n - 1].decay, Decay(tokens, 0, n - 1), start, Dot(Faded(tokens, x, n - 1), u, n - 1),
              u[n - 1], x[n - 1], before, Decay(tokens, 0, n));
    }
  }

  lemma ReadingEmpty(tokens: seq<Token>, u: Vec, x: Vec, start: real)
    ensures Reading(tokens, u, x, start, 0) == Decay(tokens, 0, 0) * start + Dot(Faded(tokens, x, 0), u, 0)
  {}

  /** Entry `c` of the keys. */
  function KeyEntries(tokens: seq<Token>, size: nat, c: nat): (x: Vec)
    requires Uniform(tokens, size) && c < size
    ensures |x| == |tokens|
    ensures forall t :: 0 <= t < |tokens| ==> x[t] == tokens[t].key[c]
  {
    seq(|tokens|, t requires 0 <= t < |tokens| => tokens[t].key[c])
  }

  /** The keys' inner products with `z`. */
  function KeyDots(tokens: seq<Token>, z: Vec): (x: Vec)
    requires Uniform(tokens, |z|)
    ensures |x| == |tokens|
    ensures forall t :: 0 <= t < |tokens| ==> x[t] == Dot(tokens[t].key, z, |z|)
  {
    seq(|tokens|, t requires 0 <= t < |tokens| => Dot(tokens[t].key, z, |z|))
  }

  lemma StepEntry(column: Vec, token: Token, i: nat, delta: real, c: real, k: real)
    requires |token.key| == |column| && i < |column|
    requires delta == Delta(column, token) && c == column[i] && k == token.key[i]
    ensures Step(column, token)[i] == token.decay * c + delta * k
  {
    hide Delta, Dot;
  }

  lemma StepDot(column: Vec, token: Token, z: Vec, delta: real, c: real, k: real)
    requires |token.key| == |column| == |z|
    requires delta == Delta(column, token) && c == Dot(column, z, |z|) && k == Dot(token.key, z, |z|)
    ensures Dot(Step(column, token), z, |z|) == token.decay * c + delta * k
  {
    hide *;
    StepUnfold(column, token, delta);
    DotScaleNamed(token.decay, column, z, |z|, c);
    DotAxpyNamed(delta, token.key, Scale(token.decay, column), z, |z|, k, token.decay * c);
  }

  lemma StepUnfold(column: Vec, token: Token, delta: real)
    requires |token.key| == |column| && delta == Delta(column, token)
    ensures Step(column, token) == Axpy(delta, token.key, Scale(token.decay, column))
  {}

  /** `u` lists the corrections of the first `n` tokens. */
  ghost predicate AreDeltas(u: Vec, column: Vec, tokens: seq<Token>, n: nat)
    requires n <= |tokens| && Uniform(tokens, |column|)
  {
    |u| >= n && forall t {:trigger u[t]} :: 0 <= t < n ==> u[t] == Delta(Run(column, tokens, t), tokens[t])
  }

  lemma RunUnfold(column: Vec, tokens: seq<Token>, u: Vec, n: nat)
    requires 0 < n <= |tokens| && Uniform(tokens, |column|) && AreDeltas(u, column, tokens, n)
    ensures n <= |u| && |tokens[n - 1].key| == |column|
    ensures u[n - 1] == Delta(Run(column, tokens, n - 1), tokens[n - 1])
    ensures Run(column, tokens, n) == Step(Run(column, tokens, n - 1), tokens[n - 1])
  {}

  lemma {:induction false} RunEntryIsReading(column: Vec, tokens: seq<Token>, c: nat, u: Vec, n: nat)
    requires n <= |tokens| && Uniform(tokens, |column|) && c < |column|
    requires AreDeltas(u, column, tokens, n)
    ensures Run(column, tokens, n)[c] == Reading(tokens, u, KeyEntries(tokens, |column|, c), column[c], n)
  {
    if n != 0 {
      hide *;
      RunEntryIsReading(column, tokens, c, u, n - 1);
      RunEntryStep(column, tokens, c, u, n);
    }
  }

  lemma RunEntryStep(column: Vec, tokens: seq<Token>, c: nat, u: Vec, n: nat)
    requires 0 < n <= |tokens| && Uniform(tokens, |column|) && c < |column|
    requires AreDeltas(u, column, tokens, n)
    requires Run(column, tokens, n - 1)[c] == Reading(tokens, u, KeyEntries(tokens, |column|, c), column[c], n - 1)
    ensures Run(column, tokens, n)[c] == Reading(tokens, u, KeyEntries(tokens, |column|, c), column[c], n)
  {
    hide *;
    RunUnfold(column, tokens, u, n);
    var x, reading := KeyEntries(tokens, |column|, c), Run(column, tokens, n - 1)[c];
    StepEntry(Run(column, tokens, n - 1), tokens[n - 1], c, u[n - 1], reading, x[n - 1]);
    ReadingUnfold(tokens, u, x, column[c], n, reading);
  }

  lemma {:induction false} RunDotIsReading(column: Vec, tokens: seq<Token>, z: Vec, u: Vec, n: nat)
    requires n <= |tokens| && Uniform(tokens, |column|) && |z| == |column|
    requires AreDeltas(u, column, tokens, n)
    ensures Dot(Run(column, tokens, n), z, |z|)
         == Reading(tokens, u, KeyDots(tokens, z), Dot(column, z, |z|), n)
  {
    if n != 0 {
      hide *;
      RunDotIsReading(column, tokens, z, u, n - 1);
      RunDotStep(column, tokens, z, u, n);
    }
  }

  lemma RunDotStep(column: Vec, tokens: seq<Token>, z: Vec, u: Vec, n: nat)
    requires 0 < n <= |tokens| && Uniform(tokens, |column|) && |z| == |column|
    requires AreDeltas(u, column, tokens, n)
    requires Dot(Run(column, tokens, n - 1), z, |z|)
          == Reading(tokens, u, KeyDots(tokens, z), Dot(column, z, |z|), n - 1)
    ensures Dot(Run(column, tokens, n), z, |z|)
         == Reading(tokens, u, KeyDots(tokens, z), Dot(column, z, |z|), n)
  {
    hide *;
    RunUnfold(column, tokens, u, n);
    var x, reading := KeyDots(tokens, z), Dot(Run(column, tokens, n - 1), z, |z|);
    StepDot(Run(column, tokens, n - 1), tokens[n - 1], z, u[n - 1], reading, x[n - 1]);
    ReadingUnfold(tokens, u, x, Dot(column, z, |z|), n, reading);
  }

  /** The state after `n` tokens is the decayed start plus the keys weighted by their faded
      corrections. This is the identity the chunkwise form is built on. */
  lemma StateClosedForm(column: Vec, tokens: seq<Token>, c: nat, n: nat)
    requires n <= |tokens| && Uniform(tokens, |column|) && c < |column|
    ensures Run(column, tokens, n)[c]
         == Decay(tokens, 0, n) * column[c]
            + Dot(Faded(tokens, KeyEntries(tokens, |column|, c), n), Deltas(column, tokens, n), n)
  {
    hide *;
    var u := Deltas(column, tokens, n);
    RunEntryIsReading(column, tokens, c, u, n);
    ReadingClosedForm(tokens, u, KeyEntries(tokens, |column|, c), column[c], n);
  }

  /** The same identity read through any vector `z` (a query, or the next key). */
  lemma ProjectionClosedForm(column: Vec, tokens: seq<Token>, z: Vec, n: nat)
    requires n <= |tokens| && Uniform(tokens, |column|) && |z| == |column|
    ensures Dot(Run(column, tokens, n), z, |z|)
         == Decay(tokens, 0, n) * Dot(column, z, |z|)
            + Dot(Faded(tokens, KeyDots(tokens, z), n), Deltas(column, tokens, n), n)
  {
    hide *;
    var u := Deltas(column, tokens, n);
    RunDotIsReading(column, tokens, z, u, n);
    ReadingClosedForm(tokens, u, KeyDots(tokens, z), Dot(column, z, |z|), n);
  }
}
