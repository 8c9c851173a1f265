/** Repacking head-major buffers [head][token][dimension] into token-major ones
    [token][head][dimension]. */
module GdnRepack {
  import opened LinearAlgebra
  import opened Layout
  import opened GdnRecurrence
  import opened GdnProblem

  function HeadMajor(tokens: nat, size: nat, head: nat, token: nat, d: nat): nat {
    At(At(head, token, tokens), d, size)
  }

  function TokenMajor(heads: nat, size: nat, head: nat, token: nat, d: nat): nat {
    At(At(token, head, heads), d, size)
  }

  lemma MajorBounds(heads: nat, tokens: nat, size: nat, head: nat, token: nat, d: nat)
    requires head < heads && token < tokens && d < size
    ensures HeadMajor(tokens, size, head, token, d) < heads * tokens * size
    ensures TokenMajor(heads, size, head, token, d) < tokens * heads * size
  {
    AtBound(head, heads, token, tokens);
    AtBound(At(head, token, tokens), heads * tokens, d, size);
    AtBound(token, tokens, head, heads);
    AtBound(At(token, head, heads), tokens * heads, d, size);
  }

  /** `dest` holds the first cells in token-major order of the transposition of `src`. */
  ghost predicate TransposedUpTo(src: seq<real>, dest: seq<real>, heads: nat, tokens: nat, size: nat, cells: nat)
    requires |src| == heads * tokens * size && |dest| == tokens * heads * size
  {
    forall head, token, d {:trigger TokenMajor(heads, size, head, token, d)} ::
      0 <= head < heads && 0 <= token < tokens && 0 <= d < size && TokenMajor(heads, size, head, token, d) < cells ==>
      TokenMajor(heads, size, head, token, d) < |dest| && HeadMajor(tokens, size, head, token, d) < |src|
      && dest[TokenMajor(heads, size, head, token, d)] == src[HeadMajor(tokens, size, head, token, d)]
  }

  ghost predicate Transposes(src: seq<real>, dest: seq<real>, heads: nat, tokens: nat, size: nat) {
    |src| == heads * tokens * size && |dest| == tokens * heads * size
    && TransposedUpTo(src, dest, heads, tokens, size, tokens * heads * size)
  }

  /** Token-major addresses are met in increasing order: each cell is written exactly once. */
  lemma NextCell(src: seq<real>, was: seq<real>, now: seq<real>, heads: nat, tokens: nat, size: nat, head: nat,
                 token: nat, d: nat)
    requires |src| == heads * tokens * size && |was| == |now| == tokens * heads * size
    requires head < heads && token < tokens && d < size
    requires TransposedUpTo(src, was, heads, tokens, size, TokenMajor(heads, size, head, token, d))
    requires TokenMajor(heads, size, head, token, d) < |was| && HeadMajor(tokens, size, head, token, d) < |src|
    requires now == was[TokenMajor(heads, size, head, token, d) := src[HeadMajor(tokens, size, head, token, d)]]
    ensures TransposedUpTo(src, now, heads, tokens, size, TokenMajor(heads, size, head, token, d) + 1)
  {
    forall h, t, e {:trigger TokenMajor(heads, size, h, t, e)} |
      0 <= h < heads && 0 <= t < tokens && 0 <= e < size
        && TokenMajor(heads, size, h, t, e) < TokenMajor(heads, size, head, token, d) + 1
      ensures TokenMajor(heads, size, h, t, e) < |now| && HeadMajor(tokens, size, h, t, e) < |src|
           && now[TokenMajor(heads, size, h, t, e)] == src[HeadMajor(tokens, size, h, t, e)]
    {
      MajorBounds(heads, tokens, size, h, t, e);
      SameCell(heads, size, h, t, e, head, token, d);
      hide At, HeadMajor, TokenMajor;
    }
  }

  lemma SameCell(heads: nat, size: nat, h: nat, t: nat, e: nat, head: nat, token: nat, d: nat)
    requires h < heads && head < heads && e < size && d < size
    ensures TokenMajor(heads, size, h, t, e) == TokenMajor(heads, size, head, token, d)
      <==> h == head && t == token && e == d
  {
    AtInjective(At(t, h, heads), e, At(token, head, heads), d, size);
    AtInjective(t, h, token, head, heads);
  }

  lemma RowCells(heads: nat, size: nat, head: nat, token: nat)
    ensures TokenMajor(heads, size, head, token, size) == TokenMajor(heads, size, head + 1, token, 0)
    ensures TokenMajor(heads, size, heads, token, 0) == TokenMajor(heads, size, 0, token + 1, 0)
    ensures TokenMajor(heads, size, 0, 0, 0) == 0
  {
    assert (token * heads + head + 1) * size == (token * heads + head) * size + size;
    assert (token + 1) * heads == token * heads + heads;
  }

  lemma NextDimension(heads: nat, size: nat, head: nat, token: nat, d: nat)
    ensures TokenMajor(heads, size, head, token, d + 1) == TokenMajor(heads, size, head, token, d) + 1
  {}

  lemma AllCells(heads: nat, tokens: nat, size: nat)
    ensures TokenMajor(heads, size, 0, tokens, 0) == tokens * heads * size
  {}

  /** One token's vector of one head. */
  method RepackVector(src: seq<real>, dest: array<real>, heads: nat, tokens: nat, size: nat, head: nat, token: nat)
    requires |src| == heads * tokens * size && dest.Length == tokens * heads * size && head < heads && token < tokens
    requires TransposedUpTo(src, dest[..], heads, tokens, size, TokenMajor(heads, size, head, token, 0))
    modifies dest
    ensures TransposedUpTo(src, dest[..], heads, tokens, size, TokenMajor(heads, size, head + 1, token, 0))
  {
    for d := 0 to size
      invariant TransposedUpTo(src, dest[..], heads, tokens, size, TokenMajor(heads, size, head, token, d))
    {
      hide *;
      MajorBounds(heads, tokens, size, head, token, d);
      ghost var was := dest[..];
      dest[TokenMajor(heads, size, head, token, d)] := src[HeadMajor(tokens, size, head, token, d)];
      NextCell(src, was, dest[..], heads, tokens, size, head, token, d);
      NextDimension(heads, size, head, token, d);
    }
    RowCells(heads, size, head, token);
  }

  /** The repack loops, for a buffer of any head count and vector size; beta and decay have size 1. */
  method Repack(src: seq<real>, heads: nat, tokens: nat, size: nat) returns (dest: array<real>)
    requires |src| == heads * tokens * size
    ensures fresh(dest) && Transposes(src, dest[..], heads, tokens, size)
    ensures forall head, token, d :: 0 <= head < heads && 0 <= token < tokens && 0 <= d < size ==>
      Moved(src, dest[..], heads, tokens, size, head, token, d)
  {
    dest := new real[tokens * heads * size](i => 0.0);
    RowCells(heads, size, 0, 0);
    hide TokenMajor, HeadMajor, Moved;
    for token := 0 to tokens
      invariant TransposedUpTo(src, dest[..], heads, tokens, size, TokenMajor(heads, size, 0, token, 0))
    {
      for head := 0 to heads
        invariant TransposedUpTo(src, dest[..], heads, tokens, size, TokenMajor(heads, size, head, token, 0))
      {
        RepackVector(src, dest, heads, tokens, size, head, token);
      }
      RowCells(heads, size, 0, token);
    }
    AllCells(heads, tokens, size);
    forall head, token, d | 0 <= head < heads && 0 <= token < tokens && 0 <= d < size
      ensures Moved(src, dest[..], heads, tokens, size, head, token, d)
    {
      TransposedMoves(src, dest[..], heads, tokens, size, head, token, d);
    }
  }

  /** Cell [head][token][d] of the one buffer is cell [token][head][d] of the other. */
  ghost predicate Moved(src: seq<real>, dest: seq<real>, heads: nat, tokens: nat, size: nat, head: nat, token: nat,
                        d: nat)
  {
    var from, to := (head * tokens + token) * size + d, (token * heads + head) * size + d;
    0 <= from < |src| && 0 <= to < |dest| && dest[to] == src[from]
  }

  lemma MajorAddress(a: nat, b: nat, c: nat, n: nat, size: nat)
    ensures HeadMajor(n, size, a, b, c) == (a * n + b) * size + c == TokenMajor(n, size, b, a, c)
  {}

  lemma TransposedMoves(src: seq<real>, dest: seq<real>, heads: nat, tokens: nat, size: nat, head: nat, token: nat,
                        d: nat)
    requires Transposes(src, dest, heads, tokens, size) && head < heads && token < tokens && d < size
    ensures Moved(src, dest, heads, tokens, size, head, token, d)
  {
    hide At, HeadMajor, TokenMajor, Transposes;
    TransposedAt(src, dest, heads, tokens, size, head, token, d);
    MajorAddress(head, token, d, tokens, size);
    MajorAddress(token, head, d, heads, size);
  }

  lemma TransposedAt(src: seq<real>, dest: seq<real>, heads: nat, tokens: nat, size: nat, head: nat, token: nat, d: nat)
    requires Transposes(src, dest, heads, tokens, size) && head < heads && token < tokens && d < size
    ensures TokenMajor(heads, size, head, token, d) < |dest| && HeadMajor(tokens, size, head, token, d) < |src|
    ensures dest[TokenMajor(heads, size, head, token, d)] == src[HeadMajor(tokens, size, head, token, d)]
  {
    MajorBounds(heads, tokens, size, head, token, d);
    hide At, TokenMajor, HeadMajor;
  }

  /** Repacking back with the roles exchanged restores the original buffer. */
  lemma RepackRoundTrip(src: seq<real>, dest: seq<real>, back: seq<real>, heads: nat, tokens: nat, size: nat)
    requires Transposes(src, dest, heads, tokens, size) && Transposes(dest, back, tokens, heads, size)
    ensures back == src
  {
    forall i | 0 <= i < |src| ensures back[i] == src[i] {
      var r, d := AtSurjective(i, heads * tokens, size);
      var head, token := AtSurjective(r, heads, tokens);
      hide At;
      TransposedAt(src, dest, heads, tokens, size, head, token, d);
      TransposedAt(dest, back, tokens, heads, size, token, head, d);
      assert HeadMajor(tokens, size, head, token, d) == TokenMajor(tokens, size, token, head, d) == i;
      assert TokenMajor(heads, size, head, token, d) == HeadMajor(heads, size, token, head, d);
    }
  }

  // ----- the recurrence over the repacked buffers -----

  /** The five token-major buffers. */
  datatype Packed = Packed(query: seq<real>, key: seq<real>, value: seq<real>, beta: seq<real>, decay: seq<real>)

  ghost predicate PackedFrom(p: Problem, t: Packed) {
    && Transposes(p.query, t.query, p.keyHeads, p.tokens, p.size)
    && Transposes(p.key, t.key, p.keyHeads, p.tokens, p.size)
    && Transposes(p.value, t.value, p.valueHeads, p.tokens, p.size)
    && Transposes(p.beta, t.beta, p.valueHeads, p.tokens, 1)
    && Transposes(p.decay, t.decay, p.valueHeads, p.tokens, 1)
  }

  lemma VectorInside(heads: nat, tokens: nat, size: nat, head: nat, token: nat)
    requires head < heads && token < tokens
    ensures At(At(token, head, heads), 0, size) + size <= tokens * heads * size
  {
    AtBound(token, tokens, head, heads);
    ProductOrder(At(token, head, heads) + 1, tokens * heads, size);
    assert (At(token, head, heads) + 1) * size == At(token, head, heads) * size + size;
  }

  /** A vector read from a token-major buffer. */
  function PackedVector(buffer: seq<real>, heads: nat, tokens: nat, size: nat, head: nat, token: nat): (v: Vec)
    requires |buffer| == tokens * heads * size && head < heads && token < tokens
    ensures |v| == size
  {
    VectorInside(heads, tokens, size, head, token);
    buffer[At(At(token, head, heads), 0, size)..At(At(token, head, heads), 0, size) + size]
  }

  function OriginalVector(buffer: seq<real>, heads: nat, tokens: nat, size: nat, head: nat, token: nat): (v: Vec)
    requires |buffer| == heads * tokens * size && head < heads && token < tokens
    ensures |v| == size
  {
    VectorInside(tokens, heads, size, token, head);
    buffer[At(At(head, token, tokens), 0, size)..At(At(head, token, tokens), 0, size) + size]
  }

  lemma VectorsAgree(src: seq<real>, dest: seq<real>, heads: nat, tokens: nat, size: nat, head: nat, token: nat)
    requires Transposes(src, dest, heads, tokens, size) && head < heads && token < tokens
    ensures PackedVector(dest, heads, tokens, size, head, token)
         == OriginalVector(src, heads, tokens, size, head, token)
  {
    VectorInside(heads, tokens, size, head, token);
    VectorInside(tokens, heads, size, token, head);
    forall d | 0 <= d < size
      ensures PackedVector(dest, heads, tokens, size, head, token)[d]
           == OriginalVector(src, heads, tokens, size, head, token)[d]
    {
      TransposedAt(src, dest, heads, tokens, size, head, token, d);
      AtOffset(At(token, head, heads), d, size);
      AtOffset(At(head, token, tokens), d, size);
      hide At;
    }
  }

  /** One token as value dimension `dim` of head `head` sees it in the token-major buffers. */
  function PackedToken(p: Problem, t: Packed, head: nat, dim: nat, token: nat): (r: Token)
    requires p.Valid() && PackedFrom(p, t) && head < p.valueHeads && dim < p.size && token < p.tokens
  {
    Token(PackedVector(t.decay, p.valueHeads, p.tokens, 1, head, token)[0],
          PackedVector(t.beta, p.valueHeads, p.tokens, 1, head, token)[0],
          PackedVector(t.value, p.valueHeads, p.tokens, p.size, head, token)[dim],
          PackedVector(t.key, p.keyHeads, p.tokens, p.size, head % p.keyHeads, token),
          PackedVector(t.query, p.keyHeads, p.tokens, p.size, head % p.keyHeads, token))
  }

  lemma OriginalVectors(p: Problem, head: nat, token: nat)
    requires p.Valid() && head < p.valueHeads && token < p.tokens
    ensures OriginalVector(p.value, p.valueHeads, p.tokens, p.size, head, token) == ValueOf(p, head, token)
    ensures OriginalVector(p.key, p.keyHeads, p.tokens, p.size, head % p.keyHeads, token) == KeyOf(p, head, token)
    ensures OriginalVector(p.query, p.keyHeads, p.tokens, p.size, head % p.keyHeads, token) == QueryOf(p, head, token)
  {}

  lemma OriginalScalars(p: Problem, head: nat, token: nat)
    requires p.Valid() && head < p.valueHeads && token < p.tokens
    ensures OriginalVector(p.decay, p.valueHeads, p.tokens, 1, head, token)[0] == DecayOf(p, head, token)
    ensures OriginalVector(p.beta, p.valueHeads, p.tokens, 1, head, token)[0] == BetaOf(p, head, token)
  {
    VectorInside(p.tokens, p.valueHeads, 1, token, head);
    AtOne(At(head, token, p.tokens));
    hide At;
  }

  lemma PackedScalars(p: Problem, t: Packed, head: nat, token: nat)
    requires p.Valid() && PackedFrom(p, t) && head < p.valueHeads && token < p.tokens
    ensures PackedVector(t.decay, p.valueHeads, p.tokens, 1, head, token)[0] == DecayOf(p, head, token)
    ensures PackedVector(t.beta, p.valueHeads, p.tokens, 1, head, token)[0] == BetaOf(p, head, token)
  {
    hide *;
    PackedParts(p, t);
    VectorsAgree(p.decay, t.decay, p.valueHeads, p.tokens, 1, head, token);
    VectorsAgree(p.beta, t.beta, p.valueHeads, p.tokens, 1, head, token);
    OriginalScalars(p, head, token);
  }

  lemma PackedParts(p: Problem, t: Packed)
    requires PackedFrom(p, t)
    ensures Transposes(p.query, t.query, p.keyHeads, p.tokens, p.size)
    ensures Transposes(p.key, t.key, p.keyHeads, p.tokens, p.size)
    ensures Transposes(p.value, t.value, p.valueHeads, p.tokens, p.size)
    ensures Transposes(p.beta, t.beta, p.valueHeads, p.tokens, 1)
    ensures Transposes(p.decay, t.decay, p.valueHeads, p.tokens, 1)
  {}

  lemma PackedVectors(p: Problem, t: Packed, head: nat, shared: nat, token: nat)
    requires p.Valid() && PackedFrom(p, t) && head < p.valueHeads && token < p.tokens && shared == head % p.keyHeads
    ensures PackedVector(t.value, p.valueHeads, p.tokens, p.size, head, token) == ValueOf(p, head, token)
    ensures PackedVector(t.key, p.keyHeads, p.tokens, p.size, shared, token) == KeyOf(p, head, token)
    ensures PackedVector(t.query, p.keyHeads, p.tokens, p.size, shared, token) == QueryOf(p, head, token)
  {
    hide *;
    PackedParts(p, t);
    VectorsAgree(p.value, t.value, p.valueHeads, p.tokens, p.size, head, token);
    SharedHead(p, head);
    VectorsAgree(p.key, t.key, p.keyHeads, p.tokens, p.size, shared, token);
    VectorsAgree(p.query, t.query, p.keyHeads, p.tokens, p.size, shared, token);
    OriginalVectors(p, head, token);
  }

  /** Every head reads the same token from either layout, shared keys included: any recurrence over
      the repacked buffers is the recurrence over the originals. */
  lemma PackedTokenIsToken(p: Problem, t: Packed, head: nat, dim: nat, token: nat)
    requires p.Valid() && PackedFrom(p, t) && head < p.valueHeads && dim < p.size && token < p.tokens
    ensures PackedToken(p, t, head, dim, token) == TokenOf(p, head, dim, token)
  {
    hide PackedFrom, PackedVector, KeyOf, QueryOf, ValueOf, DecayOf, BetaOf;
    PackedScalars(p, t, head, token);
    PackedVectors(p, t, head, head % p.keyHeads, token);
  }

  lemma AtOne(row: nat)
    ensures At(row, 0, 1) == row
  {}

  function PackedStream(p: Problem, t: Packed, head: nat, dim: nat): (ts: seq<Token>)
    requires p.Valid() && PackedFrom(p, t) && head < p.valueHeads && dim < p.size
    ensures |ts| == p.tokens
  {
    seq(p.tokens, token requires 0 <= token < p.tokens => PackedToken(p, t, head, dim, token))
  }

  lemma PackedStreamIsStream(p: Problem, t: Packed, head: nat, dim: nat)
    requires p.Valid() && PackedFrom(p, t) && head < p.valueHeads && dim < p.size
    ensures PackedStream(p, t, head, dim) == Stream(p, head, dim, 0, p.tokens)
  {
    hide PackedToken, PackedFrom, TokenOf;
    var packed, original := PackedStream(p, t, head, dim), Stream(p, head, dim, 0, p.tokens);
    forall token | 0 <= token < p.tokens ensures packed[token] == original[token] {
      PackedTokenIsToken(p, t, head, dim, token);
    }
  }

  /** `final` and `output` are what the recurrence over the token-major inputs makes of `initial`,
      the state and the outputs laid out as before. */
  ghost predicate PackedRecurred(p: Problem, t: Packed, scale: real, initial: seq<real>, final: seq<real>,
                                 output: seq<real>)
    requires p.Valid() && PackedFrom(p, t) && |initial| == p.valueHeads * Area(p.size)
  {
    && |final| == |initial| && |output| == p.valueHeads * p.tokens * p.size
    && forall head, dim :: 0 <= head < p.valueHeads && 0 <= dim < p.size ==>
      PackedColumn(p, t, scale, initial, final, output, head, dim)
  }

  /** One value dimension of one head: its state column and all its outputs. */
  ghost predicate PackedColumn(p: Problem, t: Packed, scale: real, initial: seq<real>, final: seq<real>,
                               output: seq<real>, head: nat, dim: nat)
    requires p.Valid() && PackedFrom(p, t) && |initial| == |final| == p.valueHeads * Area(p.size)
    requires head < p.valueHeads && dim < p.size
  {
    var column, ts := ColumnOf(initial, p.valueHeads, head, p.size, dim), PackedStream(p, t, head, dim);
    && Uniform(ts, p.size)
    && ColumnOf(final, p.valueHeads, head, p.size, dim) == Run(column, ts, p.tokens)
    && forall token {:trigger OutputIndex(p, head, token, dim)} :: 0 <= token < p.tokens ==>
      OutputIndex(p, head, token, dim) < |output|
      && output[OutputIndex(p, head, token, dim)] == Emit(column, ts, token, scale)
  }

  /** The same over the original buffers. */
  ghost predicate OriginalColumn(p: Problem, scale: real, initial: seq<real>, final: seq<real>, output: seq<real>,
                                 head: nat, dim: nat)
    requires p.Valid() && |initial| == |final| == p.valueHeads * Area(p.size)
    requires head < p.valueHeads && dim < p.size
  {
    && ColumnOf(final, p.valueHeads, head, p.size, dim) == StateAfter(p, initial, head, dim, p.tokens)
    && forall token {:trigger OutputIndex(p, head, token, dim)} :: 0 <= token < p.tokens ==>
      OutputIndex(p, head, token, dim) < |output|
      && output[OutputIndex(p, head, token, dim)] == OutputAt(p, initial, scale, head, token, dim)
  }

  lemma ColumnsAgree(p: Problem, t: Packed, scale: real, initial: seq<real>, final: seq<real>, output: seq<real>,
                     head: nat, dim: nat)
    requires p.Valid() && PackedFrom(p, t) && |initial| == |final| == p.valueHeads * Area(p.size)
    requires head < p.valueHeads && dim < p.size
    ensures PackedColumn(p, t, scale, initial, final, output, head, dim)
      <==> OriginalColumn(p, scale, initial, final, output, head, dim)
  {
    hide PackedFrom, PackedStream, Stream, Run, Emit, ColumnOf, OutputIndex, Area;
    PackedStreamIsStream(p, t, head, dim);
  }

  /** Recurred, one value dimension of one head at a time. */
  lemma RecurredByColumns(p: Problem, scale: real, initial: seq<real>, final: seq<real>, output: seq<real>)
    requires p.Valid() && |initial| == |final| == p.valueHeads * Area(p.size)
    requires |output| == p.valueHeads * p.tokens * p.size
    ensures Recurred(p, scale, initial, final, output)
      <==> forall head, dim :: 0 <= head < p.valueHeads && 0 <= dim < p.size ==>
        OriginalColumn(p, scale, initial, final, output, head, dim)
  {
    hide ColumnOf, OutputIndex, StateAfter, OutputAt, Area;
    if forall head, dim :: 0 <= head < p.valueHeads && 0 <= dim < p.size ==>
      OriginalColumn(p, scale, initial, final, output, head, dim)
    {
      forall head, dim | 0 <= head < p.valueHeads && 0 <= dim < p.size
        ensures ColumnOf(final, p.valueHeads, head, p.size, dim) == StateAfter(p, initial, head, dim, p.tokens)
      {
        assert OriginalColumn(p, scale, initial, final, output, head, dim);
      }
      forall head, token, dim | 0 <= head < p.valueHeads && 0 <= token < p.tokens && 0 <= dim < p.size
        ensures OutputIndex(p, head, token, dim) < |output|
          && output[OutputIndex(p, head, token, dim)] == OutputAt(p, initial, scale, head, token, dim)
      {
        assert OriginalColumn(p, scale, initial, final, output, head, dim);
      }
    }
  }

  /** State and outputs: the recurrence over the repacked buffers and the recurrence over the
      originals allow exactly the same results. */
  lemma RepackedRecurrence(p: Problem, t: Packed, scale: real, initial: seq<real>, final: seq<real>, output: seq<real>)
    requires p.Valid() && PackedFrom(p, t) && |initial| == p.valueHeads * Area(p.size)
    ensures PackedRecurred(p, t, scale, initial, final, output) <==> Recurred(p, scale, initial, final, output)
  {
    hide PackedFrom, PackedColumn, OriginalColumn, Area, PackedStream;
    if |final| == |initial| && |output| == p.valueHeads * p.tokens * p.size {
      RecurredByColumns(p, scale, initial, final, output);
      hide Recurred;
      Transfer(p, t, scale, initial, final, output);
    }
  }

  lemma Transfer(p: Problem, t: Packed, scale: real, initial: seq<real>, final: seq<real>, output: seq<real>)
    requires p.Valid() && PackedFrom(p, t) && |initial| == |final| == p.valueHeads * Area(p.size)
    ensures (forall head, dim :: 0 <= head < p.valueHeads && 0 <= dim < p.size ==>
              PackedColumn(p, t, scale, initial, final, output, head, dim))
      <==> (forall head, dim :: 0 <= head < p.valueHeads && 0 <= dim < p.size ==>
              OriginalColumn(p, scale, initial, final, output, head, dim))
  {
    hide PackedFrom, PackedColumn, OriginalColumn, Area;
    forall head, dim | 0 <= head < p.valueHeads && 0 <= dim < p.size
      ensures PackedColumn(p, t, scale, initial, final, output, head, dim)
        <==> OriginalColumn(p, scale, initial, final, output, head, dim)
    {
      ColumnsAgree(p, t, scale, initial, final, output, head, dim);
    }
  }

  /** The five repack loops. */
  method RepackProblem(p: Problem) returns (t: Packed)
    requires p.Valid()
    ensures PackedFrom(p, t)
  {
    hide Transposes;
    var query := Repack(p.query, p.keyHeads, p.tokens, p.size);
    var key := Repack(p.key, p.keyHeads, p.tokens, p.size);
    var value := Repack(p.value, p.valueHeads, p.tokens, p.size);
    var beta := Repack(p.beta, p.valueHeads, p.tokens, 1);
    var decay := Repack(p.decay, p.valueHeads, p.tokens, 1);
    t := Packed(query[..], key[..], value[..], beta[..], decay[..]);
  }
}
