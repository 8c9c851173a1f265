/** The chunkwise kernel: every chunk of every head is built, solved, emitted and folded into
    the state at once, and the result is that of the token recurrence. */
module GdnChunkwise {
  import opened LinearAlgebra
  import opened Layout
  import opened Matrix
  import opened TriangularSystem
  import opened ForwardSubstitution
  import opened GdnRecurrence
  import opened GdnChunk
  import opened GdnDecay
  import opened GdnProblem
  import opened GdnFlat
  import opened GdnProgress
  import opened GdnBuild
  import opened GdnSolve
  import opened GdnRecurrent
  import opened GdnCorrections
  import opened GdnEmit
  import opened ExpLog

  /** What the emit and update phases need of one value dimension. */
  ghost predicate DimReady(p: Problem, head: nat, start: nat, chunk: nat, scale: real, log: real -> real,
                           exp: real -> real, cumulative: seq<real>, intra: seq<Vec>, u: Vec, column: Vec, dim: nat)
    requires p.Valid() && head < p.valueHeads && start + chunk <= p.tokens && dim < p.size
  {
    var stream := Stream(p, head, dim, start, chunk);
    && |cumulative| == |intra| == |u| == chunk && |column| == p.size
    && LogInverse(log, exp, stream) && CumulativeTo(cumulative, log, stream, chunk)
    && (forall r {:trigger intra[r]} :: 0 <= r < chunk ==>
          |intra[r]| == chunk && IntraRowBuilt(intra[r], stream, p.size, scale, r, r + 1))
    && AreDeltas(u, column, stream, chunk)
  }

  /** The output of row r and dimension d of the chunk, from the head's columns at its start. */
  ghost function ChunkEmit(p: Problem, state: seq<real>, base: nat, head: nat, start: nat, chunk: nat, scale: real,
                           r: nat, d: nat): real
    requires p.Valid() && head < p.valueHeads && start + chunk <= p.tokens && r < chunk && d < p.size
    requires base + Area(p.size) <= |state|
  {
    Emit(ColumnAt(state, base, p.size, d), Stream(p, head, d, start, chunk), r, scale)
  }

  /** The dimension loop of one output row. */
  method EmitChunkRow(p: Problem, head: nat, start: nat, chunk: nat, scale: real, log: real -> real, exp: real -> real,
                      row: nat, cumulative: array<real>, state: array<real>, intra: array2<real>,
                      corrected: array2<real>, output: array<real>)
    requires p.Valid() && head < p.valueHeads && start + chunk <= p.tokens && row < chunk && Exponential(exp)
    requires cumulative.Length == intra.Length0 == intra.Length1 == corrected.Length0 == chunk
    requires corrected.Length1 == p.size
    requires HeadBase(p.size, head) + Area(p.size) <= state.Length
    requires output.Length == p.valueHeads * p.tokens * p.size
    requires output != state && output != cumulative
    requires forall d {:trigger Col(corrected, d)} :: 0 <= d < p.size ==>
      DimReady(p, head, start, chunk, scale, log, exp, cumulative[..], Rows(intra), Col(corrected, d),
               ColumnAt(state[..], HeadBase(p.size, head), p.size, d), d)
    modifies output
    ensures forall d {:trigger OutputIndex(p, head, start + row, d)} :: 0 <= d < p.size ==>
      OutputIndex(p, head, start + row, d) < output.Length
      && output[OutputIndex(p, head, start + row, d)]
         == ChunkEmit(p, state[..], HeadBase(p.size, head), head, start, chunk, scale, row, d)
    ensures SameOutside(old(output[..]), output[..], TokenBase(p, head, start + row),
                        TokenBase(p, head, start + row) + p.size)
  {
    hide Area, HeadBase, TokenBase, ColumnAt, Stream, Emit, Run, AreDeltas, CumulativeTo, LogInverse, IntraRowBuilt,
         Exponential, Decay, LogSum;
    ghost var s, c, i, u, base := state[..], cumulative[..], Rows(intra), Rows(corrected), HeadBase(p.size, head);
    for dim := 0 to p.size
      invariant forall d {:trigger OutputIndex(p, head, start + row, d)} :: 0 <= d < dim ==>
        OutputIndex(p, head, start + row, d) < output.Length
        && output[OutputIndex(p, head, start + row, d)] == ChunkEmit(p, s, base, head, start, chunk, scale, row, d)
      invariant SameOutside(old(output[..]), output[..], TokenBase(p, head, start + row),
                            TokenBase(p, head, start + row) + p.size)
    {
      OutputCellInside(p, head, start + row, dim);
      assert state[..] == s && cumulative[..] == c;
      assert DimReady(p, head, start, chunk, scale, log, exp, c, i, Col(corrected, dim),
                      ColumnAt(s, base, p.size, dim), dim);
      CumulativeAt(c, log, Stream(p, head, dim, start, chunk), chunk, row);
      ExpOfSum(log, exp, Stream(p, head, dim, start, chunk), row + 1);
      assert i[row] == Row(intra, row);
      assert cumulative[row] == c[row];
      ghost var before := output[..];
      OutputAddress(p, head, start + row, dim);
      EmitChunkCell(p, head, start, chunk, scale, row, dim, exp(cumulative[row]), state, intra, corrected, output);
      ghost var cell := OutputIndex(p, head, start + row, dim);
      forall k | 0 <= k < output.Length && k != cell ensures output[k] == before[k] {
        assert output[k] == output[..][k];
      }
      assert output[cell] == output[..][cell];
    }
    assert state[..] == s;
  }

  /** The first `n` rows of a chunk's outputs are written. */
  ghost predicate Emitted(p: Problem, output: seq<real>, state: seq<real>, head: nat, start: nat, chunk: nat,
                          scale: real, n: nat)
    requires p.Valid() && head < p.valueHeads && start + chunk <= p.tokens && n <= chunk
    requires HeadBase(p.size, head) + Area(p.size) <= |state|
  {
    forall t, d {:trigger OutputIndex(p, head, t, d)} :: start <= t < start + n && 0 <= d < p.size ==>
      OutputIndex(p, head, t, d) < |output|
      && output[OutputIndex(p, head, t, d)]
         == ChunkEmit(p, state, HeadBase(p.size, head), head, start, chunk, scale, t - start, d)
  }

  lemma EmittedNext(p: Problem, o: seq<real>, o': seq<real>, state: seq<real>, head: nat, start: nat, chunk: nat,
                    scale: real, row: nat)
    requires p.Valid() && head < p.valueHeads && start + chunk <= p.tokens && row < chunk
    requires HeadBase(p.size, head) + Area(p.size) <= |state|
    requires |o| == |o'| == p.valueHeads * p.tokens * p.size
    requires Emitted(p, o, state, head, start, chunk, scale, row)
    requires SameOutside(o, o', TokenBase(p, head, start + row), TokenBase(p, head, start + row) + p.size)
    requires forall d {:trigger OutputIndex(p, head, start + row, d)} :: 0 <= d < p.size ==>
      OutputIndex(p, head, start + row, d) < |o'|
      && o'[OutputIndex(p, head, start + row, d)]
         == ChunkEmit(p, state, HeadBase(p.size, head), head, start, chunk, scale, row, d)
    ensures Emitted(p, o', state, head, start, chunk, scale, row + 1)
  {
    hide Area, HeadBase, TokenBase, OutputIndex, ChunkEmit;
    forall t, d | start <= t < start + row + 1 && 0 <= d < p.size
      ensures OutputIndex(p, head, t, d) < |o'|
           && o'[OutputIndex(p, head, t, d)]
              == ChunkEmit(p, state, HeadBase(p.size, head), head, start, chunk, scale, t - start, d)
    {
      if t < start + row {
        OutputRowOutside(p, head, start + row, head, t, d);
        assert o'[OutputIndex(p, head, t, d)] == o[OutputIndex(p, head, t, d)];
      } else {
        assert OutputIndex(p, head, start + row, d) == OutputIndex(p, head, t, d);
      }
    }
  }

  /** Every output of a chunk for one head. */
  method EmitChunk(p: Problem, head: nat, start: nat, chunk: nat, scale: real, log: real -> real, exp: real -> real,
                   cumulative: array<real>, state: array<real>, intra: array2<real>, corrected: array2<real>,
                   output: array<real>)
    requires p.Valid() && head < p.valueHeads && start + chunk <= p.tokens && Exponential(exp)
    requires cumulative.Length == intra.Length0 == intra.Length1 == corrected.Length0 == chunk
    requires corrected.Length1 == p.size
    requires HeadBase(p.size, head) + Area(p.size) <= state.Length
    requires output.Length == p.valueHeads * p.tokens * p.size
    requires output != state && output != cumulative
    requires forall d {:trigger Col(corrected, d)} :: 0 <= d < p.size ==>
      DimReady(p, head, start, chunk, scale, log, exp, cumulative[..], Rows(intra), Col(corrected, d),
               ColumnAt(state[..], HeadBase(p.size, head), p.size, d), d)
    modifies output
    ensures Emitted(p, output[..], state[..], head, start, chunk, scale, chunk)
    ensures forall t, d :: start <= t < start + chunk && 0 <= d < p.size ==>
      CellEmitted(p, output[..], state[..], head, start, chunk, scale, t, d)
    ensures SameOutside(old(output[..]), output[..], TokenBase(p, head, start),
                        TokenBase(p, head, start) + chunk * p.size)
  {
    hide Area, HeadBase, TokenBase, ColumnAt, DimReady, OutputIndex, ChunkEmit, Col, Rows, SameOutside, Emitted,
         CellEmitted;
    ghost var s, c, o, lo, hi := state[..], cumulative[..], output[..], TokenBase(p, head, start),
        TokenBase(p, head, start) + chunk * p.size;
    SameOutsideReflexive(o, lo, hi);
    EmittedNone(p, o, s, head, start, chunk, scale);
    for row := 0 to chunk
      invariant state[..] == s && cumulative[..] == c
      invariant Emitted(p, output[..], s, head, start, chunk, scale, row)
      invariant SameOutside(o, output[..], lo, hi)
    {
      ghost var before := output[..];
      EmitChunkRow(p, head, start, chunk, scale, log, exp, row, cumulative, state, intra, corrected, output);
      assert state[..] == s && cumulative[..] == c;
      EmittedNext(p, before, output[..], s, head, start, chunk, scale, row);
      RowWithinBlock(p, head, start, chunk, row);
      SameOutsideWider(before, output[..], TokenBase(p, head, start + row), TokenBase(p, head, start + row) + p.size,
                       lo, hi);
      SameOutsideTransitive(o, before, output[..], lo, hi);
    }
    forall t, d | start <= t < start + chunk && 0 <= d < p.size
      ensures CellEmitted(p, output[..], s, head, start, chunk, scale, t, d)
    {
      EmittedAt(p, output[..], s, head, start, chunk, scale, t, d);
    }
  }

  /** The output of one token and dimension, at the source's address. */
  ghost predicate CellEmitted(p: Problem, output: seq<real>, state: seq<real>, head: nat, start: nat, chunk: nat,
                              scale: real, t: nat, d: nat)
    requires p.Valid() && head < p.valueHeads && start <= t < start + chunk <= p.tokens && d < p.size
    requires HeadBase(p.size, head) + Area(p.size) <= |state|
  {
    OutputHolds(p, output, head, t, d,
                ChunkEmit(p, state, HeadBase(p.size, head), head, start, chunk, scale, t - start, d))
  }

  lemma EmittedAt(p: Problem, output: seq<real>, state: seq<real>, head: nat, start: nat, chunk: nat, scale: real,
                  t: nat, d: nat)
    requires p.Valid() && head < p.valueHeads && start <= t < start + chunk <= p.tokens && d < p.size
    requires HeadBase(p.size, head) + Area(p.size) <= |state|
    requires Emitted(p, output, state, head, start, chunk, scale, chunk)
    ensures CellEmitted(p, output, state, head, start, chunk, scale, t, d)
  {
    hide Area, HeadBase, ChunkEmit, OutputIndex, OutputHolds;
    var x := ChunkEmit(p, state, HeadBase(p.size, head), head, start, chunk, scale, t - start, d);
    OutputHoldsAt(p, output, head, t, d, x);
    assert OutputIndex(p, head, t, d) < |output|;
  }

  lemma EmittedNone(p: Problem, output: seq<real>, state: seq<real>, head: nat, start: nat, chunk: nat, scale: real)
    requires p.Valid() && head < p.valueHeads && start + chunk <= p.tokens
    requires HeadBase(p.size, head) + Area(p.size) <= |state|
    ensures Emitted(p, output, state, head, start, chunk, scale, 0)
  {}

  lemma RowWithinBlock(p: Problem, head: nat, start: nat, chunk: nat, row: nat)
    requires row < chunk
    ensures TokenBase(p, head, start) <= TokenBase(p, head, start + row)
    ensures TokenBase(p, head, start + row) + p.size <= TokenBase(p, head, start) + chunk * p.size
  {
    var first := At(head, start, p.tokens);
    assert At(head, start + row, p.tokens) == first + row;
    Distribute(first, row, p.size);
    ProductOrder(row + 1, chunk, p.size);
    Distribute(row, 1, p.size);
  }

  lemma SameOutsideWider(s: seq<real>, s': seq<real>, lo: nat, hi: nat, lo': nat, hi': nat)
    requires |s| == |s'| && SameOutside(s, s', lo, hi) && lo' <= lo && hi <= hi'
    ensures SameOutside(s, s', lo', hi')
  {}

  /** One state cell of the chunk's update. */
  method UpdateEntry(p: Problem, head: nat, start: nat, chunk: nat, ghost scale: real, log: real -> real,
                     exp: real -> real, row: nat, dim: nat, cumulative: array<real>, state: array<real>,
                     ghost intra: seq<Vec>,
                     corrected: array2<real>, ghost column: Vec)
    requires p.Valid() && head < p.valueHeads && start + chunk <= p.tokens && 0 < chunk && row < p.size && dim < p.size
    requires cumulative.Length == corrected.Length0 == chunk && corrected.Length1 == p.size && Exponential(exp)
    requires HeadBase(p.size, head) + Area(p.size) <= state.Length && state != cumulative
    requires DimReady(p, head, start, chunk, scale, log, exp, cumulative[..], intra, Col(corrected, dim), column, dim)
    requires ColumnAt(state[..], HeadBase(p.size, head), p.size, dim)[row] == column[row]
    modifies state
    ensures ColumnAt(state[..], HeadBase(p.size, head), p.size, dim)
         == ColumnAt(old(state[..]), HeadBase(p.size, head), p.size,
                     dim)[row := Run(column, Stream(p, head, dim, start, chunk), chunk)[row]]
    ensures SameElsewhere(old(state[..]), state[..], HeadBase(p.size, head), p.size, dim)
  {
    hide Area, HeadBase, ColumnAt, Stream, Run, AreDeltas, CumulativeTo, LogInverse, IntraRowBuilt, Exponential,
         SameElsewhere, Col;
    var base := HeadBase(p.size, head);
    var x := GetEntry(state, base, p.size, row, dim);
    var y := UpdateCell(p, head, start, chunk, row, dim, cumulative, log, exp, corrected, x, column);
    SetEntry(state, base, p.size, row, dim, y);
  }

  /** The dimension loop of one state row. */
  method UpdateRow(p: Problem, head: nat, start: nat, chunk: nat, ghost scale: real, log: real -> real,
                   exp: real -> real, row: nat, cumulative: array<real>, state: array<real>, ghost intra: seq<Vec>,
                   corrected: array2<real>, ghost s0: seq<real>)
    requires p.Valid() && head < p.valueHeads && start + chunk <= p.tokens && 0 < chunk && row < p.size
    requires Exponential(exp)
    requires cumulative.Length == corrected.Length0 == chunk && corrected.Length1 == p.size
    requires |s0| == state.Length && HeadBase(p.size, head) + Area(p.size) <= state.Length && state != cumulative
    requires forall d {:trigger Col(corrected, d)} :: 0 <= d < p.size ==>
      DimReady(p, head, start, chunk, scale, log, exp, cumulative[..], intra, Col(corrected, d),
               ColumnAt(s0, HeadBase(p.size, head), p.size, d), d)
    requires Updated(p, s0, state[..], head, start, chunk, row, 0)
    modifies state
    ensures Updated(p, s0, state[..], head, start, chunk, row, p.size)
    ensures SameOutside(old(state[..]), state[..], HeadBase(p.size, head), HeadBase(p.size, head) + Area(p.size))
  {
    hide Area, HeadBase, ColumnAt, Stream, ChunkRun, DimReady, Exponential, Spliced, SameOutside, SameElsewhere, Col,
         Updated;
    ghost var c, s1 := cumulative[..], state[..];
    SameOutsideReflexive(s1, HeadBase(p.size, head), HeadBase(p.size, head) + Area(p.size));
    for dim := 0 to p.size
      invariant Updated(p, s0, state[..], head, start, chunk, row, dim)
      invariant cumulative[..] == c
      invariant SameOutside(s1, state[..], HeadBase(p.size, head), HeadBase(p.size, head) + Area(p.size))
    {
      ghost var column, before := ColumnAt(s0, HeadBase(p.size, head), p.size, dim), state[..];
      assert DimReady(p, head, start, chunk, scale, log, exp, c, intra, Col(corrected, dim), column, dim);
      UpdatedAt(p, s0, before, head, start, chunk, row, dim);
      UpdateEntry(p, head, start, chunk, scale, log, exp, row, dim, cumulative, state, intra, corrected, column);
      ChunkRunAt(p, s0, head, start, chunk, dim);
      UpdatedNext(p, s0, s1, before, state[..], head, start, chunk, row, dim);
    }
  }

  /** State rows below `row` are updated in every column, row `row` in the columns below `dim`. */
  ghost predicate Updated(p: Problem, s0: seq<real>, state: seq<real>, head: nat, start: nat, chunk: nat, row: nat,
                          dim: nat)
    requires p.Valid() && head < p.valueHeads && start + chunk <= p.tokens && row <= p.size
    requires (row < p.size || dim == 0)
    requires |s0| == |state| && HeadBase(p.size, head) + Area(p.size) <= |state|
  {
    forall d {:trigger ColumnAt(state, HeadBase(p.size, head), p.size, d)} :: 0 <= d < p.size ==>
      ColumnAt(state, HeadBase(p.size, head), p.size, d)
        == Spliced(ChunkRun(p, s0, head, start, chunk, d), ColumnAt(s0, HeadBase(p.size, head), p.size, d),
                   if d < dim then row + 1 else row)
  }

  lemma UpdatedAt(p: Problem, s0: seq<real>, s: seq<real>, head: nat, start: nat, chunk: nat, row: nat, dim: nat)
    requires p.Valid() && head < p.valueHeads && start + chunk <= p.tokens && row < p.size && dim < p.size
    requires |s0| == |s| && HeadBase(p.size, head) + Area(p.size) <= |s|
    requires Updated(p, s0, s, head, start, chunk, row, dim)
    ensures ColumnAt(s, HeadBase(p.size, head), p.size, dim)[row]
         == ColumnAt(s0, HeadBase(p.size, head), p.size, dim)[row]
  {
    hide Area, HeadBase, ColumnAt, Stream, ChunkRun, Spliced;
    SplicedNext(ChunkRun(p, s0, head, start, chunk, dim), ColumnAt(s0, HeadBase(p.size, head), p.size, dim), row);
  }

  lemma UpdatedNext(p: Problem, s0: seq<real>, s1: seq<real>, s: seq<real>, s': seq<real>, head: nat, start: nat,
                    chunk: nat, row: nat, dim: nat)
    requires p.Valid() && head < p.valueHeads && start + chunk <= p.tokens && row < p.size && dim < p.size
    requires |s0| == |s1| == |s| == |s'| && HeadBase(p.size, head) + Area(p.size) <= |s|
    requires SameOutside(s1, s, HeadBase(p.size, head), HeadBase(p.size, head) + Area(p.size))
    requires Updated(p, s0, s, head, start, chunk, row, dim)
    requires SameElsewhere(s, s', HeadBase(p.size, head), p.size, dim)
    requires ColumnAt(s', HeadBase(p.size, head), p.size, dim)
          == ColumnAt(s, HeadBase(p.size, head), p.size, dim)[row := ChunkRun(p, s0, head, start, chunk, dim)[row]]
    ensures Updated(p, s0, s', head, start, chunk, row, dim + 1)
    ensures SameOutside(s1, s', HeadBase(p.size, head), HeadBase(p.size, head) + Area(p.size))
  {
    hide Area, HeadBase, ColumnAt, Stream, ChunkRun, Spliced;
    SplicedNext(ChunkRun(p, s0, head, start, chunk, dim), ColumnAt(s0, HeadBase(p.size, head), p.size, dim), row);
  }

  /** A head's column after the chunk's tokens, from the state at its start. */
  ghost function ChunkRun(p: Problem, state: seq<real>, head: nat, start: nat, chunk: nat, d: nat): (r: Vec)
    requires p.Valid() && head < p.valueHeads && start + chunk <= p.tokens && d < p.size
    requires HeadBase(p.size, head) + Area(p.size) <= |state|
    ensures |r| == p.size
  {
    Run(ColumnAt(state, HeadBase(p.size, head), p.size, d), Stream(p, head, d, start, chunk), chunk)
  }

  lemma ChunkRunAt(p: Problem, state: seq<real>, head: nat, start: nat, chunk: nat, d: nat)
    requires p.Valid() && head < p.valueHeads && start + chunk <= p.tokens && d < p.size
    requires HeadBase(p.size, head) + Area(p.size) <= |state|
    ensures ChunkRun(p, state, head, start, chunk, d)
         == Run(ColumnAt(state, HeadBase(p.size, head), p.size, d), Stream(p, head, d, start, chunk), chunk)
  {}

  /** The chunk's single state update for one head. */
  method UpdateChunk(p: Problem, head: nat, start: nat, chunk: nat, ghost scale: real, log: real -> real,
                     exp: real -> real, cumulative: array<real>, state: array<real>, ghost intra: seq<Vec>,
                     corrected: array2<real>)
    requires p.Valid() && head < p.valueHeads && start + chunk <= p.tokens && 0 < chunk && Exponential(exp)
    requires cumulative.Length == corrected.Length0 == chunk && corrected.Length1 == p.size
    requires HeadBase(p.size, head) + Area(p.size) <= state.Length && state != cumulative
    requires forall d {:trigger Col(corrected, d)} :: 0 <= d < p.size ==>
      DimReady(p, head, start, chunk, scale, log, exp, cumulative[..], intra, Col(corrected, d),
               ColumnAt(state[..], HeadBase(p.size, head), p.size, d), d)
    modifies state
    ensures forall d :: 0 <= d < p.size ==>
      ColumnAt(state[..], HeadBase(p.size, head), p.size, d) == ChunkRun(p, old(state[..]), head, start, chunk, d)
    ensures SameOutside(old(state[..]), state[..], HeadBase(p.size, head), HeadBase(p.size, head) + Area(p.size))
  {
    hide Area, HeadBase, ColumnAt, Stream, ChunkRun, DimReady, Spliced, SameOutside;
    ghost var s0, c, base := state[..], cumulative[..], HeadBase(p.size, head);
    SameOutsideReflexive(s0, base, base + Area(p.size));
    forall d | 0 <= d < p.size
      ensures ColumnAt(s0, base, p.size, d)
           == Spliced(ChunkRun(p, s0, head, start, chunk, d), ColumnAt(s0, base, p.size, d), 0)
    {
      SplicedEnds(ChunkRun(p, s0, head, start, chunk, d), ColumnAt(s0, base, p.size, d));
    }
    for row := 0 to p.size
      invariant Updated(p, s0, state[..], head, start, chunk, row, 0)
      invariant SameOutside(s0, state[..], base, base + Area(p.size))
    {
      ghost var before := state[..];
      assert cumulative[..] == c;
      UpdateRow(p, head, start, chunk, scale, log, exp, row, cumulative, state, intra, corrected, s0);
      SameOutsideTransitive(s0, before, state[..], base, base + Area(p.size));
    }
    forall d | 0 <= d < p.size
      ensures ColumnAt(state[..], base, p.size, d) == ChunkRun(p, s0, head, start, chunk, d)
    {
      SplicedEnds(ChunkRun(p, s0, head, start, chunk, d), ColumnAt(s0, base, p.size, d));
    }
  }

  /** log inverts exp on every decay of the problem. */
  ghost predicate Invertible(p: Problem, log: real -> real, exp: real -> real) {
    forall i {:trigger p.decay[i]} :: 0 <= i < |p.decay| ==> exp(log(p.decay[i])) == p.decay[i]
  }

  lemma InvertibleShared(p: Problem, head: nat, start: nat, chunk: nat, log: real -> real, exp: real -> real)
    requires p.Valid() && head < p.valueHeads && start + chunk <= p.tokens && Invertible(p, log, exp)
    ensures LogInverse(log, exp, Shared(p, head, start, chunk))
  {
    hide KeyOf, QueryOf, BetaOf;
    var shared := Shared(p, head, start, chunk);
    forall t {:trigger shared[t].decay} | 0 <= t < chunk ensures exp(log(shared[t].decay)) == shared[t].decay {
      TokenBaseBound(p, p.valueHeads, head, start + t);
    }
  }

  lemma IntraOfStream(p: Problem, head: nat, start: nat, chunk: nat, scale: real, s: Solved, dim: nat, r: nat)
    requires p.Valid() && head < p.valueHeads && start + chunk <= p.tokens && dim < p.size && r < chunk
    requires IsSolved(p, head, start, chunk, scale, s)
    ensures |s.intra| == chunk && |s.intra[r]| == chunk
    ensures IntraRowBuilt(s.intra[r], Stream(p, head, dim, start, chunk), p.size, scale, r, r + 1)
  {
    var shared, stream := Shared(p, head, start, chunk), Stream(p, head, dim, start, chunk);
    StreamIsShared(p, head, dim, start, chunk);
    assert RowBuilt(p, head, start, chunk, scale, r, s.system[r], s.intra[r], s.newValues[r], s.decayedK[r]);
    IntraRowSame(shared, stream, p.size, scale, r);
    hide IntraRow, SystemRow, Shared, Stream, DecayedKey, Uniform, SolvedTo, UnitLower, RightInverse, RowsBuilt;
  }

  /** After the build, solve and correct phases every value dimension is ready to be emitted. */
  lemma DimIsReady(p: Problem, head: nat, start: nat, chunk: nat, scale: real, log: real -> real, exp: real -> real,
                   cumulative: seq<real>, s: Solved, u: Vec, column: Vec, dim: nat)
    requires p.Valid() && head < p.valueHeads && start + chunk <= p.tokens && dim < p.size && |column| == p.size
    requires LogInverse(log, exp, Shared(p, head, start, chunk)) && |cumulative| == chunk == |u|
    requires CumulativeTo(cumulative, log, Shared(p, head, start, chunk), chunk)
    requires IsSolved(p, head, start, chunk, scale, s)
    requires forall r {:trigger u[r]} :: 0 <= r < chunk ==> u[r] == s.values[r][dim] - Dot(s.keys[r], column, p.size)
    ensures DimReady(p, head, start, chunk, scale, log, exp, cumulative, s.intra, u, column, dim)
  {
    hide Shared, Stream, IntraRowBuilt, AreDeltas, IsSolved, CumulativeTo, LogInverse, SameButValue, Dot;
    var shared, stream := Shared(p, head, start, chunk), Stream(p, head, dim, start, chunk);
    StreamIsShared(p, head, dim, start, chunk);
    CorrectedAreDeltas(p, head, start, chunk, scale, s, dim, column, u);
    LogInverseSame(log, exp, shared, stream);
    CumulativeSame(cumulative, log, shared, stream, chunk);
    SolvedShape(p, head, start, chunk, scale, s);
    forall r {:trigger s.intra[r]} | 0 <= r < chunk
      ensures |s.intra[r]| == chunk && IntraRowBuilt(s.intra[r], stream, p.size, scale, r, r + 1)
    {
      IntraOfStream(p, head, start, chunk, scale, s, dim, r);
    }
  }

  lemma CorrectedCellAt(values: seq<Vec>, keys: seq<Vec>, state: seq<real>, base: nat, size: nat, r: nat, d: nat)
    requires r < |values| == |keys| && d < size == |values[r]| == |keys[r]| && base + Area(size) <= |state|
    ensures CorrectedCell(values, keys, state, base, size, r, d)
         == values[r][d] - Dot(keys[r], ColumnAt(state, base, size, d), size)
  {}

  /** Build, invert, solve and correct: the corrected values of a chunk. */
  method PrepareChunk(p: Problem, head: nat, start: nat, chunk: nat, scale: real, log: real -> real, exp: real -> real,
                      state: array<real>)
    returns (cumulative: array<real>, intra: array2<real>, corrected: array2<real>)
    requires p.Valid() && head < p.valueHeads && start + chunk <= p.tokens
    requires Exponential(exp) && Invertible(p, log, exp)
    requires HeadBase(p.size, head) + Area(p.size) <= state.Length
    ensures fresh(cumulative) && fresh(intra) && fresh(corrected)
    ensures cumulative.Length == intra.Length0 == intra.Length1 == corrected.Length0 == chunk
    ensures corrected.Length1 == p.size
    ensures forall d {:trigger Col(corrected, d)} :: 0 <= d < p.size ==>
      DimReady(p, head, start, chunk, scale, log, exp, cumulative[..], Rows(intra), Col(corrected, d),
               ColumnAt(state[..], HeadBase(p.size, head), p.size, d), d)
  {
    hide Shared, HeadBase, Area, ColumnAt, Dot, DimReady, CumulativeTo, RowsBuilt, SolvedTo, UnitLower, RightInverse,
         CorrectedCell, LogInverse, Exponential, Invertible, IdentityRow;
    ghost var s0 := state[..];
    InvertibleShared(p, head, start, chunk, log, exp);
    var system, inverse, newValues, decayedK;
    cumulative, system, intra, inverse, newValues, decayedK := BuildChunk(p, head, start, chunk, scale, log, exp);
    ghost var c, sys, ir, nv, dk := cumulative[..], Rows(system), Rows(intra), Rows(newValues), Rows(decayedK);
    forall r | 0 <= r < chunk ensures IdentityRow(Row(inverse, r), r) {
      assert Rows(inverse)[r] == Row(inverse, r);
    }
    ForwardSubstitute(system, inverse);
    var values, keys := SolveChunk(inverse, newValues, decayedK);
    corrected := CorrectChunk(values, keys, state, HeadBase(p.size, head));
    ghost var solved := Solved(sys, ir, nv, dk, Rows(inverse), Rows(values), Rows(keys));
    assert Rows(system) == sys && Rows(intra) == ir && Rows(newValues) == nv && Rows(decayedK) == dk && cumulative[..]
      == c;
    assert state[..] == s0;
    assert IsSolved(p, head, start, chunk, scale, solved);
    forall d {:trigger Col(corrected, d)} | 0 <= d < p.size
      ensures DimReady(p, head, start, chunk, scale, log, exp, c, ir, Col(corrected, d),
                       ColumnAt(s0, HeadBase(p.size, head), p.size, d), d)
    {
      var u, column := Col(corrected, d), ColumnAt(s0, HeadBase(p.size, head), p.size, d);
      forall r {:trigger u[r]} | 0 <= r < chunk
        ensures u[r] == solved.values[r][d] - Dot(solved.keys[r], column, p.size)
      {
        assert corrected[r, d] == u[r];
        CorrectedCellAt(solved.values, solved.keys, s0, HeadBase(p.size, head), p.size, r, d);
      }
      DimIsReady(p, head, start, chunk, scale, log, exp, c, solved, u, column, d);
    }
  }

  /** One chunk through one head. */
  method ChunkHead(p: Problem, head: nat, start: nat, chunk: nat, scale: real, log: real -> real, exp: real -> real,
                   state: array<real>, output: array<real>, ghost initial: seq<real>)
    requires p.Valid() && |initial| == state.Length == p.valueHeads * Area(p.size) && 0 < chunk
    requires state != output && output.Length == p.valueHeads * p.tokens * p.size
    requires head < p.valueHeads && start + chunk <= p.tokens
    requires Exponential(exp) && Invertible(p, log, exp)
    requires StateProgress(p, initial, state[..], start, start + chunk, head)
    requires OutputProgress(p, scale, initial, output[..], start, start + chunk, head)
    modifies state, output
    ensures StateProgress(p, initial, state[..], start, start + chunk, head + 1)
    ensures OutputProgress(p, scale, initial, output[..], start, start + chunk, head + 1)
  {
    hide Area, HeadBase, TokenBase, ColumnAt, Exponential, Invertible, DimReady, SameOutside, Emitted, ChunkRun,
         StateProgress, OutputProgress, Col;
    HeadBaseBound(p.size, p.valueHeads, head);
    var cumulative, intra, corrected := PrepareChunk(p, head, start, chunk, scale, log, exp, state);
    ghost var s, o := state[..], output[..];
    EmitChunk(p, head, start, chunk, scale, log, exp, cumulative, state, intra, corrected, output);
    assert state[..] == s;
    ghost var o' := output[..];
    UpdateChunk(p, head, start, chunk, scale, log, exp, cumulative, state, Rows(intra), corrected);
    assert output[..] == o';
    ChunkAdvances(p, head, start, chunk, scale, initial, s, state[..], o, o');
  }

  /** A stream of the whole problem restarted at `start` is the chunk's stream. */
  lemma StreamSuffix(p: Problem, head: nat, dim: nat, start: nat, chunk: nat)
    requires p.Valid() && head < p.valueHeads && dim < p.size && start + chunk <= p.tokens
    ensures Stream(p, head, dim, 0, p.tokens)[start..][..chunk] == Stream(p, head, dim, start, chunk)
  {
    hide TokenOf;
  }

  /** Running the chunk from the carried column continues the run. */
  lemma ContinueRun(p: Problem, initial: seq<real>, head: nat, dim: nat, start: nat, chunk: nat, n: nat)
    requires p.Valid() && |initial| == p.valueHeads * Area(p.size)
    requires head < p.valueHeads && dim < p.size && start + chunk <= p.tokens && n <= chunk
    ensures Run(StateAfter(p, initial, head, dim, start), Stream(p, head, dim, start, chunk), n)
         == StateAfter(p, initial, head, dim, start + n)
  {
    hide ColumnOf, Stream, Run, Uniform;
    var column, all := ColumnOf(initial, p.valueHeads, head, p.size, dim), Stream(p, head, dim, 0, p.tokens);
    var carried := Run(column, all, start);
    RunSplits(column, all, start, n);
    StreamSuffix(p, head, dim, start, chunk);
    forall t | 0 <= t < n ensures all[start..][t] == Stream(p, head, dim, start, chunk)[t] {
      assert all[start..][..chunk][t] == all[start..][t];
    }
    RunPrefix(carried, all[start..], Stream(p, head, dim, start, chunk), n);
  }

  lemma ChunkEmitIsOutput(p: Problem, initial: seq<real>, head: nat, dim: nat, start: nat, chunk: nat, r: nat,
                          scale: real)
    requires p.Valid() && |initial| == p.valueHeads * Area(p.size)
    requires head < p.valueHeads && dim < p.size && start + chunk <= p.tokens && r < chunk
    ensures Emit(StateAfter(p, initial, head, dim, start), Stream(p, head, dim, start, chunk), r, scale)
         == OutputAt(p, initial, scale, head, start + r, dim)
  {
    hide *;
    ContinueRun(p, initial, head, dim, start, chunk, r + 1);
    StreamAt(p, head, dim, start, chunk, r);
    OutputIsReadOut(p, initial, scale, head, dim, start + r);
    EmitIsReadOut(StateAfter(p, initial, head, dim, start), Stream(p, head, dim, start, chunk), r, scale);
  }

  lemma ChunkAdvances(p: Problem, head: nat, start: nat, chunk: nat, scale: real, initial: seq<real>,
                      s: seq<real>, s': seq<real>, o: seq<real>, o': seq<real>)
    requires p.Valid() && |initial| == |s| == |s'| == p.valueHeads * Area(p.size)
    requires |o| == |o'| == p.valueHeads * p.tokens * p.size
    requires head < p.valueHeads && start + chunk <= p.tokens
    requires HeadBase(p.size, head) + Area(p.size) <= |s|
    requires StateProgress(p, initial, s, start, start + chunk, head)
    requires OutputProgress(p, scale, initial, o, start, start + chunk, head)
    requires forall d :: 0 <= d < p.size ==>
      ColumnAt(s', HeadBase(p.size, head), p.size, d) == ChunkRun(p, s, head, start, chunk, d)
    requires SameOutside(s, s', HeadBase(p.size, head), HeadBase(p.size, head) + Area(p.size))
    requires Emitted(p, o', s, head, start, chunk, scale, chunk)
    requires SameOutside(o, o', TokenBase(p, head, start), TokenBase(p, head, start) + chunk * p.size)
    ensures StateProgress(p, initial, s', start, start + chunk, head + 1)
    ensures OutputProgress(p, scale, initial, o', start, start + chunk, head + 1)
  {
    hide Area, HeadBase, TokenBase, ColumnAt, SameOutside, Run, Stream, Emit, StateAfter, OutputAt, OutputIndex;
    forall dim {:trigger ColumnOf(s', p.valueHeads, head, p.size, dim)} | 0 <= dim < p.size
      ensures ColumnOf(s', p.valueHeads, head, p.size, dim) == StateAfter(p, initial, head, dim, start + chunk)
    {
      assert ColumnOf(s, p.valueHeads, head, p.size, dim) == StateAfter(p, initial, head, dim, start);
      ContinueRun(p, initial, head, dim, start, chunk, chunk);
    }
    AdvanceState(p, initial, s, s', start, start + chunk, head);
    forall t, dim {:trigger OutputIndex(p, head, t, dim)} | start <= t < start + chunk && 0 <= dim < p.size
      ensures OutputIndex(p, head, t, dim) < |o'|
      ensures o'[OutputIndex(p, head, t, dim)] == OutputAt(p, initial, scale, head, t, dim)
    {
      assert ColumnOf(s, p.valueHeads, head, p.size, dim) == StateAfter(p, initial, head, dim, start);
      ChunkEmitIsOutput(p, initial, head, dim, start, chunk, t - start, scale);
    }
    AdvanceOutput(p, scale, initial, o, o', start, start + chunk, head);
  }

  /** The chunkwise kernel over all heads and chunks. It ends exactly where the token
      recurrence ends, whatever the chunk length. */
  method Chunkwise(p: Problem, chunk: nat, state: array<real>, scale: real, log: real -> real, exp: real -> real)
    returns (output: array<real>)
    requires p.Valid() && state.Length == p.valueHeads * Area(p.size)
    requires 0 < chunk && p.tokens % chunk == 0
    requires Exponential(exp) && Invertible(p, log, exp)
    modifies state
    ensures fresh(output)
    ensures Recurred(p, scale, old(state[..]), state[..], output[..])
    ensures Computed(p, scale, old(state[..]), state[..], output[..])
  {
    hide Area, StateAfter, OutputAt, ColumnOf, StateProgress, OutputProgress, Recurred, OutputIndex, Exponential,
         Invertible, Computed;
    ghost var initial := state[..];
    output := new real[p.valueHeads * p.tokens * p.size](i => 0.0);
    Begin(p, scale, initial, output[..], 0);
    var start := 0;
    ghost var done := 0;
    while start < p.tokens
      invariant start <= p.tokens && start == done * chunk
      invariant StateProgress(p, initial, state[..], start, start, 0)
      invariant OutputProgress(p, scale, initial, output[..], start, start, 0)
    {
      NextChunk(start, done, p.tokens, chunk);
      NextRound(p, scale, initial, state[..], output[..], start, start, start + chunk);
      for head := 0 to p.valueHeads
        invariant StateProgress(p, initial, state[..], start, start + chunk, head)
        invariant OutputProgress(p, scale, initial, output[..], start, start + chunk, head)
      {
        ChunkHead(p, head, start, chunk, scale, log, exp, state, output, initial);
      }
      NextRound(p, scale, initial, state[..], output[..], start, start + chunk, start + chunk);
      start, done := start + chunk, done + 1;
    }
    Finish(p, scale, initial, state[..], output[..]);
    RecurredIsComputed(p, scale, initial, state[..], output[..]);
  }

  /** A chunk that starts before the end also ends by the end: chunks divide the tokens. */
  lemma NextChunk(start: nat, done: nat, total: nat, chunk: nat)
    requires 0 < chunk && total % chunk == 0 && start == done * chunk < total
    ensures start + chunk <= total && start + chunk == (done + 1) * chunk
  {
    Distribute(done, 1, chunk);
    ProductOrder(total / chunk, done, chunk);
    ProductOrder(done + 1, total / chunk, chunk);
  }
}
