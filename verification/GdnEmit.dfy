/** A chunk's outputs and its single state update. */
module GdnEmit {
  import opened LinearAlgebra
  import opened Layout
  import opened Matrix
  import opened GdnRecurrence
  import opened GdnChunk
  import opened GdnDecay
  import opened GdnProblem
  import opened GdnBuild
  import opened GdnRecurrent
  import opened GdnCorrections
  import opened ExpLog

  /** query[c] * scale * decay, summed against a state column. */
  method Inter(query: Vec, scale: real, decay: real, state: array<real>, base: nat, size: nat, dim: nat, ghost w: real)
    returns (inter: real)
    requires |query| == size && dim < size && base + Area(size) <= state.Length && w == scale * decay
    ensures inter == Dot(Scale(w, query), ColumnAt(state[..], base, size, dim), size)
  {
    hide *;
    ghost var column, weighted := ColumnAt(state[..], base, size, dim), Scale(w, query);
    DotEmpty(weighted, column);
    inter := 0.0;
    for c := 0 to size
      invariant inter == Dot(weighted, column, c)
    {
      var x := GetEntry(state, base, size, c, dim);
      var q := Weigh(query, scale, decay, c, w);
      inter := Accumulate(inter, q, x, weighted, column, c);
    }
  }

  method Weigh(query: Vec, scale: real, decay: real, c: nat, ghost w: real) returns (q: real)
    requires c < |query| && w == scale * decay
    ensures q == Scale(w, query)[c]
  {
    q := query[c] * scale * decay;
  }

  /** One output cell of a chunk. */
  method EmitChunkCell(p: Problem, head: nat, start: nat, chunk: nat, scale: real, row: nat, dim: nat, decay: real,
                       state: array<real>, intra: array2<real>, corrected: array2<real>, output: array<real>)
    requires p.Valid() && head < p.valueHeads && start + chunk <= p.tokens && row < chunk && dim < p.size
    requires HeadBase(p.size, head) + Area(p.size) <= state.Length && state != output
    requires intra.Length0 == intra.Length1 == corrected.Length0 == chunk && corrected.Length1 == p.size
    requires OutputIndex(p, head, start + row, dim) < output.Length
    requires decay == Decay(Stream(p, head, dim, start, chunk), 0, row + 1)
    requires AreDeltas(Col(corrected, dim), ColumnAt(state[..], HeadBase(p.size, head), p.size, dim),
                       Stream(p, head, dim, start, chunk), chunk)
    requires IntraRowBuilt(Row(intra, row), Stream(p, head, dim, start, chunk), p.size, scale, row, row + 1)
    modifies output
    ensures var i := (head * p.tokens + (start + row)) * p.size + dim;
      0 <= i < output.Length && output[..] == old(output[..])[i :=
        Emit(ColumnAt(state[..], HeadBase(p.size, head), p.size, dim), Stream(p, head, dim, start, chunk), row, scale)]
  {
    hide *;
    OutputAddress(p, head, start + row, dim);
    ghost var stream, s := Stream(p, head, dim, start, chunk), state[..];
    ghost var column := ColumnAt(s, HeadBase(p.size, head), p.size, dim);
    ghost var w, weights, u := scale * decay, Row(intra, row), Col(corrected, dim);
    var cell := OutputIndex(p, head, start + row, dim);
    var inter := Inter(QueryOf(p, head, start + row), scale, decay, state, HeadBase(p.size, head), p.size, dim, w);
    output[cell] := inter;
    DotEmpty(weights, u);
    for source := 0 to row + 1
      invariant state[..] == s && Row(intra, row) == weights && Col(corrected, dim) == u
      invariant output[cell] == inter + Dot(weights, u, source)
      invariant output[..] == old(output[..])[cell := output[cell]]
    {
      var sum := AccumulateOn(inter, output[cell], intra[row, source], corrected[source, dim], weights, u, source);
      output[cell] := sum;
    }
    SameProduct(scale, decay, scale, Decay(stream, 0, row + 1));
    StreamAt(p, head, dim, start, chunk, row);
    CellIsEmit(column, stream, u, weights, QueryOf(p, head, start + row), scale, row, w);
    assert state[..] == s;
    assert output[cell] == Emit(column, stream, row, scale);
  }

  lemma DeltasPrefix(u: Vec, column: Vec, tokens: seq<Token>, n: nat, m: nat)
    requires m <= n <= |tokens| && Uniform(tokens, |column|) && AreDeltas(u, column, tokens, n)
    ensures AreDeltas(u, column, tokens, m)
  {
    hide Run, Delta;
  }

  lemma CellIsEmit(column: Vec, tokens: seq<Token>, u: Vec, weights: Vec, query: Vec, scale: real, row: nat, w: real)
    requires Uniform(tokens, |column|) && row < |tokens| && |weights| == |u| == |tokens|
    requires query == tokens[row].query && |query| == |column|
    requires w == scale * Decay(tokens, 0, row + 1)
    requires AreDeltas(u, column, tokens, |tokens|)
    requires IntraRowBuilt(weights, tokens, |column|, scale, row, row + 1)
    ensures Dot(Scale(w, query), column, |column|) + Dot(weights, u, row + 1) == Emit(column, tokens, row, scale)
  {
    hide *;
    DotScale(w, query, column, |column|);
    DeltasPrefix(u, column, tokens, |tokens|, row + 1);
    BuiltRowDot(weights, tokens, |column|, scale, row, u);
    OutputIsEmit(column, tokens, u, scale, row, w);
  }

  lemma BuiltRowDot(weights: Vec, tokens: seq<Token>, size: nat, scale: real, r: nat, u: Vec)
    requires Uniform(tokens, size) && r < |tokens| && r + 1 <= |weights| && r + 1 <= |u|
    requires IntraRowBuilt(weights, tokens, size, scale, r, r + 1)
    ensures Dot(weights, u, r + 1) == Dot(IntraRow(tokens, size, scale, r), u, r + 1)
  {
    hide Decay, IntraRow, Dot;
    DotCongruence(weights, IntraRow(tokens, size, scale, r), u, u, r + 1);
  }

  /** One state cell: fade it over the whole chunk and add every row's contribution. */
  method UpdateCell(p: Problem, head: nat, start: nat, chunk: nat, row: nat, dim: nat,
                    cumulative: array<real>, log: real -> real, exp: real -> real,
                    corrected: array2<real>, x: real, ghost column: Vec) returns (y: real)
    requires p.Valid() && head < p.valueHeads && start + chunk <= p.tokens && 0 < chunk && row < p.size && dim < p.size
    requires Exponential(exp) && LogInverse(log, exp, Stream(p, head, dim, start, chunk))
    requires cumulative.Length == chunk && CumulativeTo(cumulative[..], log, Stream(p, head, dim, start, chunk), chunk)
    requires corrected.Length0 == chunk && corrected.Length1 == p.size
    requires |column| == p.size && x == column[row]
    requires AreDeltas(Col(corrected, dim), column, Stream(p, head, dim, start, chunk), chunk)
    ensures y == Run(column, Stream(p, head, dim, start, chunk), chunk)[row]
  {
    hide *;
    ghost var stream, u := Stream(p, head, dim, start, chunk), Col(corrected, dim);
    ghost var entries := KeyEntries(stream, p.size, row);
    ghost var faded := Faded(stream, entries, chunk);
    DotEmpty(faded, u);
    var update := 0.0;
    for r := 0 to chunk
      invariant update == Dot(faded, u, r)
    {
      StreamAt(p, head, dim, start, chunk, r);
      CumulativeAt(cumulative[..], log, stream, chunk, r);
      CumulativeAt(cumulative[..], log, stream, chunk, chunk - 1);
      ExpOfDifference(log, exp, stream, r + 1, chunk);
      var k := FadeKey(KeyOf(p, head, start + r)[row], exp(cumulative[chunk - 1] - cumulative[r]), stream, entries,
                       chunk, r);
      update := Accumulate(update, k, corrected[r, dim], faded, u, r);
    }
    CumulativeAt(cumulative[..], log, stream, chunk, chunk - 1);
    ExpOfSum(log, exp, stream, chunk);
    var chunkDecay := exp(cumulative[chunk - 1]);
    UpdateIsRun(column, stream, u, row, x, chunkDecay);
    y := x * chunkDecay;
    y := y + update;
  }

  method FadeKey(key: real, decay: real, ghost tokens: seq<Token>, ghost entries: Vec, ghost n: nat, ghost r: nat)
    returns (k: real)
    requires r < n <= |tokens| && n <= |entries| && key == entries[r] && decay == Decay(tokens, r + 1, n)
    ensures k == Faded(tokens, entries, n)[r]
  {
    hide Decay;
    k := key * decay;
  }
}
