/** Cumulative log-decays: their exponentials are the products of decays. */
module GdnDecay {
  import opened GdnRecurrence
  import opened GdnChunk
  import opened ExpLog

  /** log inverts exp on every decay of the chunk. */
  ghost predicate LogInverse(log: real -> real, exp: real -> real, tokens: seq<Token>) {
    forall t {:trigger tokens[t].decay} :: 0 <= t < |tokens| ==> exp(log(tokens[t].decay)) == tokens[t].decay
  }

  /** The log-decays of the first `n` tokens, accumulated as the program does. */
  function LogSum(log: real -> real, tokens: seq<Token>, n: nat): real
    requires n <= |tokens|
  {
    if n == 0 then 0.0 else log(tokens[n - 1].decay) + LogSum(log, tokens, n - 1)
  }

  lemma {:induction false} ExpOfDifference(log: real -> real, exp: real -> real, tokens: seq<Token>, lo: nat, hi: nat)
    requires Exponential(exp) && LogInverse(log, exp, tokens) && lo <= hi <= |tokens|
    ensures exp(LogSum(log, tokens, hi) - LogSum(log, tokens, lo)) == Decay(tokens, lo, hi)
  {
    hide Exponential, Decay, LogSum;
    if lo < hi {
      var sum := LogSum(log, tokens, lo);
      ExpOfDifference(log, exp, tokens, lo, hi - 1);
      DecaySnoc(tokens, lo, hi);
      LogSumUnfold(log, tokens, hi);
      ExpStep(exp, log(tokens[hi - 1].decay), tokens[hi - 1].decay,
              LogSum(log, tokens, hi - 1) - sum, Decay(tokens, lo, hi - 1), LogSum(log, tokens, hi) - sum);
    } else {
      DecayEmpty(tokens, lo);
      ExpZero(exp, LogSum(log, tokens, hi) - LogSum(log, tokens, lo));
    }
  }

  lemma LogSumUnfold(log: real -> real, tokens: seq<Token>, n: nat)
    requires 0 < n <= |tokens|
    ensures LogSum(log, tokens, n) == log(tokens[n - 1].decay) + LogSum(log, tokens, n - 1)
  {}

  lemma ExpStep(exp: real -> real, a: real, ea: real, b: real, eb: real, c: real)
    requires Exponential(exp) && exp(a) == ea && exp(b) == eb && c == a + b
    ensures exp(c) == ea * eb
  {}

  lemma ExpOfSum(log: real -> real, exp: real -> real, tokens: seq<Token>, n: nat)
    requires Exponential(exp) && LogInverse(log, exp, tokens) && n <= |tokens|
    ensures exp(LogSum(log, tokens, n)) == Decay(tokens, 0, n)
  {
    assert LogSum(log, tokens, 0) == 0.0;
    hide *;
    ExpOfDifference(log, exp, tokens, 0, n);
    assert LogSum(log, tokens, n) - LogSum(log, tokens, 0) == LogSum(log, tokens, n);
  }

  // ----- two value dimensions of one head share everything but the value -----

  ghost predicate SameButValue(tokens: seq<Token>, tokens': seq<Token>) {
    && |tokens| == |tokens'|
    && forall t {:trigger tokens[t]} {:trigger tokens'[t]} :: 0 <= t < |tokens| ==>
      tokens'[t] == tokens[t].(value := tokens'[t].value)
  }

  lemma {:induction false} DecaySame(tokens: seq<Token>, tokens': seq<Token>, lo: nat, hi: nat)
    requires SameButValue(tokens, tokens') && lo <= hi <= |tokens|
    ensures Decay(tokens, lo, hi) == Decay(tokens', lo, hi)
  {
    if lo < hi { DecaySame(tokens, tokens', lo, hi - 1); }
  }

  lemma SystemRowSame(tokens: seq<Token>, tokens': seq<Token>, size: nat, r: nat)
    requires SameButValue(tokens, tokens') && Uniform(tokens, size) && Uniform(tokens', size) && r < |tokens|
    ensures SystemRow(tokens, size, r) == SystemRow(tokens', size, r)
  {
    forall c | 0 <= c < r ensures SystemRow(tokens, size, r)[c] == SystemRow(tokens', size, r)[c] {
      DecaySame(tokens, tokens', c + 1, r + 1);
    }
  }

  lemma IntraRowSame(tokens: seq<Token>, tokens': seq<Token>, size: nat, scale: real, r: nat)
    requires SameButValue(tokens, tokens') && Uniform(tokens, size) && Uniform(tokens', size) && r < |tokens|
    ensures IntraRow(tokens, size, scale, r) == IntraRow(tokens', size, scale, r)
  {
    forall s | 0 <= s <= r ensures IntraRow(tokens, size, scale, r)[s] == IntraRow(tokens', size, scale, r)[s] {
      DecaySame(tokens, tokens', s + 1, r + 1);
    }
  }

  lemma DecayedKeySame(tokens: seq<Token>, tokens': seq<Token>, size: nat, r: nat)
    requires SameButValue(tokens, tokens') && Uniform(tokens, size) && Uniform(tokens', size) && r < |tokens|
    ensures DecayedKey(tokens, size, r) == DecayedKey(tokens', size, r)
  {
    DecaySame(tokens, tokens', 0, r + 1);
  }

  lemma {:induction false} LogSumSame(log: real -> real, tokens: seq<Token>, tokens': seq<Token>, n: nat)
    requires SameButValue(tokens, tokens') && n <= |tokens|
    ensures LogSum(log, tokens, n) == LogSum(log, tokens', n)
  {
    if n != 0 { LogSumSame(log, tokens, tokens', n - 1); }
  }

  lemma LogInverseSame(log: real -> real, exp: real -> real, tokens: seq<Token>, tokens': seq<Token>)
    requires SameButValue(tokens, tokens') && LogInverse(log, exp, tokens)
    ensures LogInverse(log, exp, tokens')
  {
    forall t {:trigger tokens'[t].decay} | 0 <= t < |tokens'| ensures exp(log(tokens'[t].decay)) == tokens'[t].decay {
      assert tokens'[t].decay == tokens[t].decay;
    }
  }
}
