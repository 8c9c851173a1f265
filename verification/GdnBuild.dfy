/** Building a chunk's cumulative decays, triangular system, intra-chunk weights, gated values
    and decayed keys. */
module GdnBuild {
  import opened LinearAlgebra
  import opened Matrix
  import opened TriangularSystem
  import opened ForwardSubstitution
  import opened GdnRecurrence
  import opened GdnChunk
  import opened GdnDecay
  import opened GdnProblem
  import opened ExpLog

  /** A token without its value: what every value dimension of a head shares. */
  function SharedToken(p: Problem, head: nat, token: nat): (t: Token)
    requires p.Valid() && head < p.valueHeads && token < p.tokens
    ensures |t.key| == |t.query| == p.size
  {
    Token(DecayOf(p, head, token), BetaOf(p, head, token), 0.0, KeyOf(p, head, token), QueryOf(p, head, token))
  }

  function Shared(p: Problem, head: nat, start: nat, n: nat): (ts: seq<Token>)
    requires p.Valid() && head < p.valueHeads && start + n <= p.tokens
    ensures |ts| == n
    ensures forall t :: 0 <= t < n ==> ts[t] == SharedToken(p, head, start + t)
    ensures Uniform(ts, p.size)
  {
    var ts := seq(n, t requires 0 <= t < n => SharedToken(p, head, start + t));
    assert forall t :: 0 <= t < n ==> ts[t] == SharedToken(p, head, start + t);
    ts
  }

  lemma StreamIsShared(p: Problem, head: nat, dim: nat, start: nat, n: nat)
    requires p.Valid() && head < p.valueHeads && dim < p.size && start + n <= p.tokens
    ensures SameButValue(Shared(p, head, start, n), Stream(p, head, dim, start, n))
  {
    hide KeyOf, QueryOf, ValueOf, DecayOf, BetaOf;
  }

  /** The two inner products of one pair of rows: (beta k_r) . k_c and q_r . k_c. */
  method PairDots(row: Token, column: Token, size: nat) returns (keyBetaDot: real, queryKeyDot: real)
    requires |row.key| == |row.query| == |column.key| == size
    ensures keyBetaDot == Dot(Scale(row.beta, row.key), column.key, size)
    ensures queryKeyDot == Dot(row.query, column.key, size)
  {
    hide *;
    ghost var gated := Scale(row.beta, row.key);
    DotEmpty(gated, column.key);
    DotEmpty(row.query, column.key);
    keyBetaDot, queryKeyDot := 0.0, 0.0;
    for d := 0 to size
      invariant keyBetaDot == Dot(gated, column.key, d)
      invariant queryKeyDot == Dot(row.query, column.key, d)
    {
      ScaleAt(row.beta, row.key, d);
      keyBetaDot := Accumulate(keyBetaDot, row.key[d] * row.beta, column.key[d], gated, column.key, d);
      queryKeyDot := Accumulate(queryKeyDot, row.query[d], column.key[d], row.query, column.key, d);
    }
  }

  /** One entry of the system and of the intra-chunk weights, from the pair's dots and decay. */
  method PairEntry(tokens: seq<Token>, size: nat, scale: real, row: nat, column: nat, pairwise: real)
    returns (system: real, intra: real)
    requires Uniform(tokens, size) && column <= row < |tokens|
    requires pairwise == Decay(tokens, column + 1, row + 1)
    ensures column < row ==> system == SystemRow(tokens, size, row)[column]
    ensures intra == IntraRow(tokens, size, scale, row)[column]
  {
    hide Decay, Scale, Dot, Uniform;
    UniformAt(tokens, size, row);
    UniformAt(tokens, size, column);
    var keyBetaDot, queryKeyDot := PairDots(tokens[row], tokens[column], size);
    DotScale(tokens[row].beta, tokens[row].key, tokens[column].key, size);
    system := keyBetaDot * pairwise;
    intra := queryKeyDot * pairwise * scale;
  }

  ghost predicate CumulativeTo(cumulative: seq<real>, log: real -> real, tokens: seq<Token>, n: nat)
    requires n <= |cumulative| && n <= |tokens|
  {
    forall r {:trigger cumulative[r]} :: 0 <= r < n ==> cumulative[r] == LogSum(log, tokens, r + 1)
  }

  ghost predicate SystemRowBuilt(v: Vec, tokens: seq<Token>, size: nat, r: nat, n: nat)
    requires Uniform(tokens, size) && n <= r < |tokens| && n <= |v|
  {
    forall c {:trigger v[c]} :: 0 <= c < n ==> v[c] == SystemRow(tokens, size, r)[c]
  }

  ghost predicate IntraRowBuilt(v: Vec, tokens: seq<Token>, size: nat, scale: real, r: nat, n: nat)
    requires Uniform(tokens, size) && n <= r + 1 && r < |tokens| && n <= |v|
  {
    forall s {:trigger v[s]} :: 0 <= s < n ==> v[s] == IntraRow(tokens, size, scale, r)[s]
  }

  /** The column loop of one row. */
  method PairRow(tokens: seq<Token>, size: nat, scale: real, row: nat, log: real -> real, exp: real -> real,
                 cumulative: array<real>, pairwise: array2<real>, system: array2<real>, intra: array2<real>)
    requires Exponential(exp) && LogInverse(log, exp, tokens)
    requires Uniform(tokens, size) && row < |tokens| == cumulative.Length
    requires |tokens| == pairwise.Length0 == pairwise.Length1 == system.Length0 == system.Length1
    requires |tokens| == intra.Length0 == intra.Length1
    requires pairwise != system && pairwise != intra && system != intra
    requires CumulativeTo(cumulative[..], log, tokens, row + 1)
    modifies pairwise, system, intra
    ensures Rows(system) == old(Rows(system))[row := Row(system, row)]
    ensures Rows(intra) == old(Rows(intra))[row := Row(intra, row)]
    ensures SystemRowBuilt(Row(system, row), tokens, size, row, row)
    ensures IntraRowBuilt(Row(intra, row), tokens, size, scale, row, row + 1)
  {
    hide Exponential, LogInverse, Uniform, LogSum, Decay, SystemRow, IntraRow, Row, Rows;
    ghost var system0, intra0 := Rows(system), Rows(intra);
    for column := 0 to row + 1
      invariant Rows(system) == system0[row := Row(system, row)]
      invariant Rows(intra) == intra0[row := Row(intra, row)]
      invariant SystemRowBuilt(Row(system, row), tokens, size, row, if column < row then column else row)
      invariant IntraRowBuilt(Row(intra, row), tokens, size, scale, row, column)
    {
      assert cumulative[..][row] == cumulative[row] && cumulative[..][column] == cumulative[column];
      ExpOfDifference(log, exp, tokens, column + 1, row + 1);
      var decay := exp(cumulative[row] - cumulative[column]);
      SetCell(pairwise, row, column, decay);
      var s, i := PairEntry(tokens, size, scale, row, column, decay);
      SetCell(system, row, column, s);
      SetCell(intra, row, column, i);
    }
  }

  lemma DecayedKeyAt(tokens: seq<Token>, size: nat, r: nat, decay: real, d: nat)
    requires Uniform(tokens, size) && r < |tokens| && decay == Decay(tokens, 0, r + 1) && d < size
    ensures |tokens[r].key| == size
    ensures DecayedKey(tokens, size, r)[d] == tokens[r].key[d] * tokens[r].beta * decay
  {
    hide Decay;
  }

  /** The dimension loop of one row: the decayed key and the gated value. */
  method KeyValueRow(tokens: seq<Token>, size: nat, value: Vec, decay: real, row: nat,
                     newValues: array2<real>, decayedK: array2<real>)
    requires Uniform(tokens, size) && row < |tokens| == newValues.Length0 == decayedK.Length0
    requires |value| == newValues.Length1 == decayedK.Length1 == size
    requires newValues != decayedK && decay == Decay(tokens, 0, row + 1)
    modifies newValues, decayedK
    ensures Rows(newValues) == old(Rows(newValues))[row := Scale(tokens[row].beta, value)]
    ensures Rows(decayedK) == old(Rows(decayedK))[row := DecayedKey(tokens, size, row)]
  {
    hide *;
    UniformAt(tokens, size, row);
    var token := tokens[row];
    ghost var decayed, gated := DecayedKey(tokens, size, row), Scale(token.beta, value);
    ghost var values0, keys0 := Rows(newValues), Rows(decayedK);
    SplicedEnds(decayed, keys0[row]);
    SplicedEnds(gated, values0[row]);
    for d := 0 to size
      invariant Rows(newValues) == values0[row := Spliced(gated, values0[row], d)]
      invariant Rows(decayedK) == keys0[row := Spliced(decayed, keys0[row], d)]
    {
      SplicedNext(decayed, keys0[row], d);
      SplicedNext(gated, values0[row], d);
      ScaleAt(token.beta, value, d);
      DecayedKeyAt(tokens, size, row, decay, d);
      var k, v := token.key[d] * token.beta * decay, value[d] * token.beta;
      assert k == decayed[d] && v == gated[d];
      SetCell(decayedK, row, d, k);
      SetCell(newValues, row, d, v);
    }
  }

  /** The first `n` rows of a chunk's buffers are final. */
  ghost predicate RowsBuilt(p: Problem, head: nat, start: nat, chunk: nat, scale: real, n: nat,
                            system: seq<Vec>, intra: seq<Vec>, newValues: seq<Vec>, decayedK: seq<Vec>)
    requires p.Valid() && head < p.valueHeads && start + chunk <= p.tokens && n <= chunk
    requires |system| == |intra| == |newValues| == |decayedK| == chunk
  {
    forall r {:trigger system[r]} {:trigger intra[r]} {:trigger newValues[r]} {:trigger decayedK[r]} :: 0 <= r < n ==>
      RowBuilt(p, head, start, chunk, scale, r, system[r], intra[r], newValues[r], decayedK[r])
  }

  ghost predicate RowBuilt(p: Problem, head: nat, start: nat, chunk: nat, scale: real, r: nat,
                           system: Vec, intra: Vec, newValues: Vec, decayedK: Vec)
    requires p.Valid() && head < p.valueHeads && start + chunk <= p.tokens && r < chunk
  {
    var tokens := Shared(p, head, start, chunk);
    && |system| == |intra| == chunk
    && SystemRowBuilt(system, tokens, p.size, r, r)
    && IntraRowBuilt(intra, tokens, p.size, scale, r, r + 1)
    && newValues == Scale(BetaOf(p, head, start + r), ValueOf(p, head, start + r))
    && decayedK == DecayedKey(tokens, p.size, r)
  }

  ghost predicate IdentityRows(inverse: seq<Vec>, n: nat)
    requires n <= |inverse|
  {
    && (forall r {:trigger inverse[r]} :: 0 <= r < n ==> IdentityRow(inverse[r], r))
    && (forall r {:trigger inverse[r]} :: n <= r < |inverse| ==> inverse[r] == Zero(|inverse[r]|))
  }

  /** cumulative[row] = log(decay) + (row == 0 ? 0 : cumulative[row - 1]) */
  method AccumulateLog(cumulative: array<real>, row: nat, log: real -> real, tokens: seq<Token>)
    requires row < cumulative.Length == |tokens| && CumulativeTo(cumulative[..], log, tokens, row)
    modifies cumulative
    ensures CumulativeTo(cumulative[..], log, tokens, row + 1)
  {
    ghost var c0 := cumulative[..];
    assert row > 0 ==> c0[row - 1] == LogSum(log, tokens, row);
    cumulative[row] := log(tokens[row].decay) + (if row == 0 then 0.0 else cumulative[row - 1]);
    assert cumulative[..] == c0[row := LogSum(log, tokens, row + 1)];
  }

  /** The first half of one iteration of the row loop: the decays, the system row and the weights. */
  method BuildPairs(tokens: seq<Token>, size: nat, scale: real, row: nat, log: real -> real, exp: real -> real,
                    cumulative: array<real>, pairwise: array2<real>, system: array2<real>, intra: array2<real>)
    requires Exponential(exp) && LogInverse(log, exp, tokens)
    requires Uniform(tokens, size) && row < |tokens| == cumulative.Length
    requires |tokens| == pairwise.Length0 == pairwise.Length1 == system.Length0 == system.Length1
    requires |tokens| == intra.Length0 == intra.Length1
    requires pairwise != system && pairwise != intra && system != intra
    requires CumulativeTo(cumulative[..], log, tokens, row)
    modifies cumulative, pairwise, system, intra
    ensures CumulativeTo(cumulative[..], log, tokens, row + 1)
    ensures Rows(system) == old(Rows(system))[row := Row(system, row)]
    ensures Rows(intra) == old(Rows(intra))[row := Row(intra, row)]
    ensures SystemRowBuilt(Row(system, row), tokens, size, row, row)
    ensures IntraRowBuilt(Row(intra, row), tokens, size, scale, row, row + 1)
  {
    hide Exponential, LogInverse, Uniform, SystemRow, IntraRow, Row, Rows, CumulativeTo, IntraRowBuilt;
    AccumulateLog(cumulative, row, log, tokens);
    PairRow(tokens, size, scale, row, log, exp, cumulative, pairwise, system, intra);
    SetCell(system, row, row, 0.0);
  }

  /** The second half: the decayed key, the gated value and the inverse's diagonal. */
  method BuildVectors(p: Problem, head: nat, start: nat, chunk: nat, row: nat, log: real -> real, exp: real -> real,
                      cumulative: array<real>, inverse: array2<real>, newValues: array2<real>, decayedK: array2<real>)
    requires p.Valid() && head < p.valueHeads && start + chunk <= p.tokens && row < chunk == cumulative.Length
    requires Exponential(exp) && LogInverse(log, exp, Shared(p, head, start, chunk))
    requires chunk == inverse.Length0 == inverse.Length1 == newValues.Length0 == decayedK.Length0
    requires p.size == newValues.Length1 == decayedK.Length1
    requires inverse != newValues && inverse != decayedK && newValues != decayedK
    requires CumulativeTo(cumulative[..], log, Shared(p, head, start, chunk), row + 1)
    modifies inverse, newValues, decayedK
    ensures var value := Scale(BetaOf(p, head, start + row), ValueOf(p, head, start + row));
      Rows(newValues) == old(Rows(newValues))[row := value]
    ensures Rows(decayedK) == old(Rows(decayedK))[row := DecayedKey(Shared(p, head, start, chunk), p.size, row)]
    ensures Rows(inverse) == old(Rows(inverse))[row := old(Row(inverse, row))[row := 1.0]]
  {
    ghost var tokens := Shared(p, head, start, chunk);
    assert tokens[row].beta == BetaOf(p, head, start + row);
    hide *;
    ExpOfSum(log, exp, tokens, row + 1);
    CumulativeAt(cumulative[..], log, tokens, row + 1, row);
    var decay := exp(cumulative[row]);
    KeyValueRow(Shared(p, head, start, chunk), p.size, ValueOf(p, head, start + row), decay, row, newValues, decayedK);
    SetCell(inverse, row, row, 1.0);
  }

  lemma CumulativeSame(cumulative: seq<real>, log: real -> real, tokens: seq<Token>, tokens': seq<Token>, n: nat)
    requires n <= |cumulative| && n <= |tokens| && SameButValue(tokens, tokens')
    requires CumulativeTo(cumulative, log, tokens, n)
    ensures CumulativeTo(cumulative, log, tokens', n)
  {
    hide LogSum, SameButValue;
    assert |tokens'| == |tokens| by { SameLength(tokens, tokens'); }
    forall r {:trigger cumulative[r]} | 0 <= r < n ensures cumulative[r] == LogSum(log, tokens', r + 1) {
      LogSumSame(log, tokens, tokens', r + 1);
    }
  }

  lemma SameLength(tokens: seq<Token>, tokens': seq<Token>)
    requires SameButValue(tokens, tokens')
    ensures |tokens'| == |tokens|
  {}

  lemma CumulativeAt(cumulative: seq<real>, log: real -> real, tokens: seq<Token>, n: nat, r: nat)
    requires n <= |cumulative| && n <= |tokens| && r < n && CumulativeTo(cumulative, log, tokens, n)
    ensures cumulative[r] == LogSum(log, tokens, r + 1)
  {}

  lemma ExtendRows(p: Problem, head: nat, start: nat, chunk: nat, scale: real, n: nat,
                   system: seq<Vec>, intra: seq<Vec>, newValues: seq<Vec>, decayedK: seq<Vec>,
                   system': seq<Vec>, intra': seq<Vec>, newValues': seq<Vec>, decayedK': seq<Vec>)
    requires p.Valid() && head < p.valueHeads && start + chunk <= p.tokens && n < chunk
    requires |system| == |intra| == |newValues| == |decayedK| == chunk
    requires |system'| == |intra'| == |newValues'| == |decayedK'| == chunk
    requires system' == system[n := system'[n]] && intra' == intra[n := intra'[n]]
    requires newValues' == newValues[n := newValues'[n]] && decayedK' == decayedK[n := decayedK'[n]]
    requires RowsBuilt(p, head, start, chunk, scale, n, system, intra, newValues, decayedK)
    requires RowBuilt(p, head, start, chunk, scale, n, system'[n], intra'[n], newValues'[n], decayedK'[n])
    ensures RowsBuilt(p, head, start, chunk, scale, n + 1, system', intra', newValues', decayedK')
  {
    hide RowBuilt;
    forall r | 0 <= r < n + 1
      ensures RowBuilt(p, head, start, chunk, scale, r, system'[r], intra'[r], newValues'[r], decayedK'[r])
    {
      if r < n {
        assert RowBuilt(p, head, start, chunk, scale, r, system[r], intra[r], newValues[r], decayedK[r]);
      }
    }
  }

  lemma RowIsBuilt(p: Problem, head: nat, start: nat, chunk: nat, scale: real, r: nat,
                   system: Vec, intra: Vec, newValues: Vec, decayedK: Vec)
    requires p.Valid() && head < p.valueHeads && start + chunk <= p.tokens && r < chunk == |system| == |intra|
    requires SystemRowBuilt(system, Shared(p, head, start, chunk), p.size, r, r)
    requires IntraRowBuilt(intra, Shared(p, head, start, chunk), p.size, scale, r, r + 1)
    requires newValues == Scale(BetaOf(p, head, start + r), ValueOf(p, head, start + r))
    requires decayedK == DecayedKey(Shared(p, head, start, chunk), p.size, r)
    ensures RowBuilt(p, head, start, chunk, scale, r, system, intra, newValues, decayedK)
  {}

  lemma StartRows(p: Problem, head: nat, start: nat, chunk: nat, scale: real,
                  system: seq<Vec>, intra: seq<Vec>, newValues: seq<Vec>, decayedK: seq<Vec>)
    requires p.Valid() && head < p.valueHeads && start + chunk <= p.tokens
    requires |system| == |intra| == |newValues| == |decayedK| == chunk
    ensures RowsBuilt(p, head, start, chunk, scale, 0, system, intra, newValues, decayedK)
  {}

  lemma ExtendIdentity(before: seq<Vec>, after: seq<Vec>, n: nat)
    requires Square(before, |before|) && n < |before| && IdentityRows(before, n)
    requires after == before[n := before[n][n := 1.0]]
    ensures IdentityRows(after, n + 1)
  {
    forall r | 0 <= r < n + 1 ensures IdentityRow(after[r], r) {
      if r < n { assert IdentityRow(before[r], r); }
    }
  }

  /** The row loop's invariant: `n` rows of every scratch buffer are filled. */
  ghost predicate Built(p: Problem, head: nat, start: nat, chunk: nat, scale: real, log: real -> real, n: nat,
                        cumulative: seq<real>, system: seq<Vec>, intra: seq<Vec>, inverse: seq<Vec>,
                        newValues: seq<Vec>, decayedK: seq<Vec>)
    requires p.Valid() && head < p.valueHeads && start + chunk <= p.tokens && n <= chunk == |cumulative|
    requires |system| == |intra| == |inverse| == |newValues| == |decayedK| == chunk
  {
    && CumulativeTo(cumulative, log, Shared(p, head, start, chunk), n)
    && RowsBuilt(p, head, start, chunk, scale, n, system, intra, newValues, decayedK)
    && IdentityRows(inverse, n)
  }

  lemma BuiltNext(p: Problem, head: nat, start: nat, chunk: nat, scale: real, log: real -> real, n: nat,
                  cumulative: seq<real>, system: seq<Vec>, intra: seq<Vec>, inverse: seq<Vec>,
                  newValues: seq<Vec>, decayedK: seq<Vec>)
    requires p.Valid() && head < p.valueHeads && start + chunk <= p.tokens && n < chunk == |cumulative|
    requires |system| == |intra| == |inverse| == |newValues| == |decayedK| == chunk
    requires CumulativeTo(cumulative, log, Shared(p, head, start, chunk), n + 1)
    requires RowsBuilt(p, head, start, chunk, scale, n + 1, system, intra, newValues, decayedK)
    requires IdentityRows(inverse, n + 1)
    ensures Built(p, head, start, chunk, scale, log, n + 1, cumulative, system, intra, inverse, newValues, decayedK)
  {}

  /** One iteration of the row loop. */
  method BuildRow(p: Problem, head: nat, start: nat, chunk: nat, scale: real, row: nat, log: real -> real,
                  exp: real -> real, cumulative: array<real>, pairwise: array2<real>, system: array2<real>,
                  intra: array2<real>, inverse: array2<real>, newValues: array2<real>, decayedK: array2<real>)
    requires p.Valid() && head < p.valueHeads && start + chunk <= p.tokens && row < chunk == cumulative.Length
    requires Exponential(exp) && LogInverse(log, exp, Shared(p, head, start, chunk))
    requires chunk == pairwise.Length0 == pairwise.Length1 == system.Length0 == system.Length1
    requires chunk == intra.Length0 == intra.Length1 == inverse.Length0 == inverse.Length1
    requires chunk == newValues.Length0 == decayedK.Length0 && p.size == newValues.Length1 == decayedK.Length1
    requires pairwise != system && pairwise != intra && pairwise != inverse && pairwise != newValues
    requires pairwise != decayedK && system != intra && system != inverse && system != newValues && system != decayedK
    requires intra != inverse && intra != newValues && intra != decayedK
    requires inverse != newValues && inverse != decayedK && newValues != decayedK
    requires Built(p, head, start, chunk, scale, log, row, cumulative[..], Rows(system), Rows(intra), Rows(inverse),
                   Rows(newValues), Rows(decayedK))
    modifies cumulative, pairwise, system, intra, inverse, newValues, decayedK
    ensures Built(p, head, start, chunk, scale, log, row + 1, cumulative[..], Rows(system), Rows(intra), Rows(inverse),
                  Rows(newValues), Rows(decayedK))
  {
    hide CumulativeTo, RowsBuilt, IdentityRows, Rows, Row, SystemRowBuilt, IntraRowBuilt, Shared, Exponential,
         LogInverse, RowBuilt, Scale, DecayedKey;
    ghost var sys0, intra0, inv0 := Rows(system), Rows(intra), Rows(inverse);
    ghost var values0, keys0 := Rows(newValues), Rows(decayedK);
    BuildPairs(Shared(p, head, start, chunk), p.size, scale, row, log, exp, cumulative, pairwise, system, intra);
    assert Rows(newValues) == values0 && Rows(decayedK) == keys0 && Rows(inverse) == inv0;
    ghost var sys1, intra1 := Rows(system), Rows(intra);
    BuildVectors(p, head, start, chunk, row, log, exp, cumulative, inverse, newValues, decayedK);
    assert Rows(system) == sys1 && Rows(intra) == intra1;
    hide *;
    RowIsBuilt(p, head, start, chunk, scale, row, sys1[row], intra1[row], Rows(newValues)[row], Rows(decayedK)[row]);
    ExtendRows(p, head, start, chunk, scale, row, sys0, intra0, values0, keys0,
               sys1, intra1, Rows(newValues), Rows(decayedK));
    ExtendIdentity(inv0, Rows(inverse), row);
    BuiltNext(p, head, start, chunk, scale, log, row, cumulative[..], sys1, intra1, Rows(inverse),
            Rows(newValues), Rows(decayedK));
  }

  /** The row loop: it allocates and fills every scratch buffer of a chunk. */
  method BuildChunk(p: Problem, head: nat, start: nat, chunk: nat, scale: real, log: real -> real, exp: real -> real)
    returns (cumulative: array<real>, system: array2<real>, intra: array2<real>, inverse: array2<real>,
             newValues: array2<real>, decayedK: array2<real>)
    requires p.Valid() && head < p.valueHeads && start + chunk <= p.tokens
    requires Exponential(exp) && LogInverse(log, exp, Shared(p, head, start, chunk))
    ensures fresh(cumulative) && fresh(system) && fresh(intra) && fresh(inverse) && fresh(newValues) && fresh(decayedK)
    ensures system != inverse && intra != inverse && newValues != inverse && decayedK != inverse
    ensures chunk == cumulative.Length == system.Length0 == system.Length1 == intra.Length0 == intra.Length1
    ensures chunk == inverse.Length0 == inverse.Length1 == newValues.Length0 == decayedK.Length0
    ensures p.size == newValues.Length1 == decayedK.Length1
    ensures CumulativeTo(cumulative[..], log, Shared(p, head, start, chunk), chunk)
    ensures RowsBuilt(p, head, start, chunk, scale, chunk, Rows(system), Rows(intra), Rows(newValues), Rows(decayedK))
    ensures IdentityRows(Rows(inverse), chunk)
  {
    hide CumulativeTo, RowsBuilt, IdentityRows, Rows, Shared, Exponential, LogInverse;
    cumulative := new real[chunk](i => 0.0);
    var pairwise := ZeroMatrix(chunk, chunk);
    system := ZeroMatrix(chunk, chunk);
    intra := ZeroMatrix(chunk, chunk);
    inverse := ZeroMatrix(chunk, chunk);
    newValues := ZeroMatrix(chunk, p.size);
    decayedK := ZeroMatrix(chunk, p.size);
    StartCumulative(cumulative[..], log, Shared(p, head, start, chunk));
    StartRows(p, head, start, chunk, scale, Rows(system), Rows(intra), Rows(newValues), Rows(decayedK));
    StartIdentity(Rows(inverse));
    for row := 0 to chunk
      invariant Built(p, head, start, chunk, scale, log, row, cumulative[..], Rows(system), Rows(intra), Rows(inverse),
                      Rows(newValues), Rows(decayedK))
    {
      hide Built;
      BuildRow(p, head, start, chunk, scale, row, log, exp, cumulative, pairwise, system, intra, inverse,
               newValues, decayedK);
    }
  }

  lemma StartCumulative(cumulative: seq<real>, log: real -> real, tokens: seq<Token>)
    ensures CumulativeTo(cumulative, log, tokens, 0)
  {}

  lemma StartIdentity(inverse: seq<Vec>)
    requires Square(inverse, |inverse|) && forall r :: 0 <= r < |inverse| ==> inverse[r] == Zero(|inverse|)
    ensures IdentityRows(inverse, 0)
  {}
}
