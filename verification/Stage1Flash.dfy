/** Candidate G: a block of queries, four lanes each, against tiles of the cache staged in LDS.
    Splits are cut from the longest causal length of the whole launch. */
module Stage1Flash {
  import opened LinearAlgebra
  import opened Layout
  import opened ExpLog
  import opened Softmax
  import opened OnlineSoftmax
  import opened Butterfly
  import opened WaveDot
  import opened Wave64
  import opened TileSoftmax
  import opened AttentionProblem
  import opened Stage1
  import opened QueryBlocks
  import opened Stage1Queries

  // ----- the cooperative load -----

  /** The tile's geometry: `granules` 16-byte cells of `grain` elements a row. */
  ghost predicate Grained(l: Launch, granules: nat, grain: nat) {
    0 < granules && 0 < grain && l.dim == Lanes(granules, grain)
  }

  /** A row of the tile: cached, or zero beyond the split. */
  function TileRow(l: Launch, key: bool, kv: nat, pos: nat, end: nat): (row: Vec)
    requires l.Valid() && kv < l.kvHeads && end <= l.capacity
    ensures |row| == l.dim
  {
    if pos < end then CachedRow(l, key, kv, pos) else Zero(l.dim)
  }

  function Granule(row: Vec, cell: nat, grain: nat): (v: Vec)
    requires At(cell, 0, grain) + grain <= |row|
    ensures |v| == grain
  {
    row[At(cell, 0, grain)..At(cell, 0, grain) + grain]
  }

  /** One granule of a tile row. */
  function TileCell(l: Launch, key: bool, kv: nat, pos: nat, end: nat, cell: nat, granules: nat, grain: nat): (v: Vec)
    requires l.Valid() && kv < l.kvHeads && end <= l.capacity && Grained(l, granules, grain) && cell < granules
    ensures |v| == grain
  {
    LaneBound(cell, granules, 0, grain);
    Granule(TileRow(l, key, kv, pos, end), cell, grain)
  }

  /** Cell number `chunk` of the tile is granule chunk % granules of row chunk / granules. */
  ghost predicate CellLoaded(cells: seq<Vec>, l: Launch, key: bool, kv: nat, first: nat, end: nat, granules: nat,
                             grain: nat, chunk: nat)
    requires l.Valid() && kv < l.kvHeads && end <= l.capacity && Grained(l, granules, grain)
  {
    chunk < |cells| && cells[chunk]
      == TileCell(l, key, kv, first + chunk / granules, end, chunk % granules, granules, grain)
  }

  ghost predicate TileLoaded(cells: seq<Vec>, l: Launch, key: bool, kv: nat, first: nat, end: nat, granules: nat,
                             grain: nat, n: nat)
    requires l.Valid() && kv < l.kvHeads && end <= l.capacity && Grained(l, granules, grain)
  {
    forall chunk :: 0 <= chunk < n ==> CellLoaded(cells, l, key, kv, first, end, granules, grain, chunk)
  }

  /** Every lane fills the cells lane, lane + 64, lane + 128, ... */
  method LoadTile(l: Launch, key: bool, kv: nat, first: nat, end: nat, granules: nat, grain: nat, rounds: nat)
    returns (tile: array<Vec>)
    requires l.Valid() && kv < l.kvHeads && end <= l.capacity && Grained(l, granules, grain)
    ensures fresh(tile) && tile.Length == Lanes(rounds, LANES)
    ensures TileLoaded(tile[..], l, key, kv, first, end, granules, grain, tile.Length)
  {
    hide TileLoaded, TileCell, Lanes;
    tile := new Vec[Lanes(rounds, LANES)](i => []);
    RoundsBegin();
    LoadNothing(tile[..], l, key, kv, first, end, granules, grain);
    for j := 0 to rounds
      invariant TileLoaded(tile[..], l, key, kv, first, end, granules, grain, Lanes(j, LANES))
    {
      NextRound(j, rounds);
      for lane := 0 to LANES
        invariant TileLoaded(tile[..], l, key, kv, first, end, granules, grain, Lanes(j, LANES) + lane)
      {
        ghost var was := tile[..];
        var chunk := lane + Lanes(j, LANES);
        var row, cell := chunk / granules, chunk % granules;
        var data := CellData(l, key, kv, first + row, end, cell, granules, grain);
        tile[chunk] := data;
        LoadOne(was, tile[..], l, key, kv, first, end, granules, grain, chunk);
      }
    }
  }

  lemma RoundsBegin()
    ensures Lanes(0, LANES) == 0
  {}

  lemma NextRound(j: nat, rounds: nat)
    requires j < rounds
    ensures Lanes(j + 1, LANES) == Lanes(j, LANES) + LANES <= Lanes(rounds, LANES)
  {}

  lemma LoadNothing(cells: seq<Vec>, l: Launch, key: bool, kv: nat, first: nat, end: nat, granules: nat, grain: nat)
    requires l.Valid() && kv < l.kvHeads && end <= l.capacity && Grained(l, granules, grain)
    ensures TileLoaded(cells, l, key, kv, first, end, granules, grain, 0)
  {}

  lemma LoadOne(was: seq<Vec>, now: seq<Vec>, l: Launch, key: bool, kv: nat, first: nat, end: nat, granules: nat,
                grain: nat, chunk: nat)
    requires l.Valid() && kv < l.kvHeads && end <= l.capacity && Grained(l, granules, grain)
    requires chunk < |was| == |now| && now == was[chunk := now[chunk]]
    requires TileLoaded(was, l, key, kv, first, end, granules, grain, chunk)
    requires now[chunk] == TileCell(l, key, kv, first + chunk / granules, end, chunk % granules, granules, grain)
    ensures TileLoaded(now, l, key, kv, first, end, granules, grain, chunk + 1)
  {
    hide TileCell;
    forall c | 0 <= c < chunk + 1 ensures CellLoaded(now, l, key, kv, first, end, granules, grain, c) {
      if c < chunk { assert CellLoaded(was, l, key, kv, first, end, granules, grain, c); }
    }
  }

  /** What one lane copies: sixteen bytes of the cache, or zeros. */
  method CellData(l: Launch, key: bool, kv: nat, pos: nat, end: nat, cell: nat, granules: nat, grain: nat)
    returns (data: Vec)
    requires l.Valid() && kv < l.kvHeads && end <= l.capacity && Grained(l, granules, grain) && cell < granules
    ensures data == TileCell(l, key, kv, pos, end, cell, granules, grain)
  {
    hide KeyRow, ValueRow, At, Lanes, CachedRow;
    LaneBound(cell, granules, 0, grain);
    if pos < end {
      data := Granule(CachedRow(l, key, kv, pos), cell, grain);
    } else {
      data := Zero(grain);
      ZeroGranule(l.dim, cell, grain);
    }
  }

  lemma ZeroGranule(dim: nat, cell: nat, grain: nat)
    requires At(cell, 0, grain) + grain <= dim
    ensures Granule(Zero(dim), cell, grain) == Zero(grain)
  {}

  /** The granules of a row are the row. */
  method ReadRow(cells: seq<Vec>, l: Launch, ghost key: bool, ghost kv: nat, ghost first: nat, ghost end: nat,
                 granules: nat, ghost grain: nat, row: nat)
    returns (v: Vec)
    requires l.Valid() && kv < l.kvHeads && end <= l.capacity && Grained(l, granules, grain)
    requires Lanes(row + 1, granules) <= |cells|
    requires TileLoaded(cells, l, key, kv, first, end, granules, grain, |cells|)
    ensures v == TileRow(l, key, kv, first + row, end)
  {
    hide TileRow, Granule;
    v := [];
    RowStarts(l.dim, granules, grain);
    for cell := 0 to granules
      invariant At(cell, 0, grain) <= l.dim && v == TileRow(l, key, kv, first + row, end)[..At(cell, 0, grain)]
    {
      LaneBound(row, row + 1, cell, granules);
      AtDigits(row, cell, granules);
      LaneBound(cell, granules, 0, grain);
      GranuleExtends(TileRow(l, key, kv, first + row, end), cell, grain);
      assert CellLoaded(cells, l, key, kv, first, end, granules, grain, At(row, cell, granules));
      v := v + cells[At(row, cell, granules)];
    }
  }

  lemma RowStarts(dim: nat, granules: nat, grain: nat)
    requires dim == Lanes(granules, grain)
    ensures At(0, 0, grain) == 0 && At(granules, 0, grain) == dim
  {}

  lemma GranuleExtends(row: Vec, cell: nat, grain: nat)
    requires At(cell, 0, grain) + grain <= |row|
    ensures At(cell + 1, 0, grain) == At(cell, 0, grain) + grain
    ensures row[..At(cell, 0, grain)] + Granule(row, cell, grain) == row[..At(cell + 1, 0, grain)]
  {
    assert (cell + 1) * grain == cell * grain + grain;
  }

  /** A whole tile of rows. */
  method LoadRows(l: Launch, key: bool, kv: nat, first: nat, end: nat, granules: nat, grain: nat, rounds: nat,
                  rows: nat)
    returns (r: seq<Vec>)
    requires l.Valid() && kv < l.kvHeads && end <= l.capacity && Grained(l, granules, grain)
    requires Lanes(rows, granules) == Lanes(rounds, LANES)
    ensures |r| == rows && forall j :: 0 <= j < rows ==> r[j] == TileRow(l, key, kv, first + j, end)
  {
    hide TileRow, TileLoaded, Grained;
    var tile := LoadTile(l, key, kv, first, end, granules, grain, rounds);
    var cells := tile[..];
    r := [];
    for j := 0 to rows
      invariant |r| == j && forall i :: 0 <= i < j ==> r[i] == TileRow(l, key, kv, first + i, end)
    {
      ProductOrder(j + 1, rows, granules);
      var row := ReadRow(cells, l, key, kv, first, end, granules, grain, j);
      r := r + [row];
    }
  }

  // ----- scores, four lanes a query -----

  /** One key row against every query of the wave. */
  method QuadDots(queries: seq<Vec>, key: Vec, width: nat) returns (dots: seq<real>)
    requires 0 < width && |key| == Lanes(4, width) && forall q :: 0 <= q < |queries| ==> |queries[q]| == |key|
    ensures |dots| == |queries| && forall q :: 0 <= q < |queries| ==> dots[q] == Dot(queries[q], key, |key|)
  {
    hide At, Tree, Block, Dot, LanePart, CommutativeSemigroup, PartsTo;
    assert Pow2(2) == 4;
    var keys := seq(|queries|, q => key);
    var parts := LaneParts(queries, keys, 2, width);
    PlusIsSemigroup();
    var v := ReduceQuads(PLUS, parts, |queries|);
    dots := [];
    for q := 0 to |queries|
      invariant |dots| == q
      invariant forall p :: 0 <= p < q ==> dots[p] == Dot(queries[p], key, |key|)
    {
      BlockIsDot(parts, queries, keys, 2, width, q);
      assert LaneHolds(PLUS, v, parts, q, 2, At(q, 0, 4));
      dots := dots + [v[At(q, 0, 4)]];
    }
  }

  /** A token's scores of the tile, masked beyond its causal length and the split. */
  ghost predicate FlashRow(row: seq<Bound>, l: Launch, token: nat, head: nat, first: nat, end: nat)
    requires l.Valid() && head < l.heads && token < l.tokens && Length(l, token) <= l.capacity
  {
    TileOf(row, Scores(l, token, head, Length(l, token)), first, Min(end, Length(l, token)))
  }

  /** The masked score of one query and one tile row: valid when k_pos <= q_pos and k_pos < k_end. */
  function MaskedScore(l: Launch, token: nat, pos: nat, end: nat, dot: real): Bound {
    if pos <= l.base + token && pos < end then Fin(dot * l.scale) else NegInf
  }

  lemma MaskedScoreIsScore(l: Launch, token: nat, head: nat, pos: nat, end: nat, dot: real)
    requires l.Valid() && head < l.heads && token < l.tokens && Length(l, token) <= l.capacity && end <= l.capacity
    requires dot == Dot(QueryRow(l, token, head), TileRow(l, true, KvHead(l, head), pos, end), l.dim)
    ensures MaskedScore(l, token, pos, end, dot)
         == if pos < Min(end, Length(l, token)) then Fin(Scores(l, token, head, Length(l, token))[pos]) else NegInf
  {
    hide QueryRow, KeyRow, ValueRow, KvHead, Dot;
  }

  ghost predicate FlashScores(scores: seq<seq<Bound>>, l: Launch, head: nat, b: Span, first: nat, end: nat)
    requires l.Valid() && head < l.heads && b.first + b.count <= l.tokens && Longest(l, b) <= l.capacity
  {
    |scores| == b.count && forall t {:trigger scores[t]} :: 0 <= t < b.count ==>
      FlashRow(scores[t], l, b.first + t, head, first, end)
  }

  method FlashTileScores(l: Launch, head: nat, b: Span, queries: seq<Vec>, keys: seq<Vec>, first: nat, end: nat,
                         quarter: nat)
    returns (scores: seq<seq<Bound>>)
    requires l.Valid() && head < l.heads && b.first + b.count <= l.tokens && Longest(l, b) <= l.capacity
    requires end <= l.capacity
    requires 0 < quarter && l.dim == Lanes(4, quarter) && b.count <= |queries|
    requires forall q :: 0 <= q < |queries| ==> |queries[q]| == l.dim
    requires forall t {:trigger queries[t]} :: 0 <= t < b.count ==> queries[t] == QueryRow(l, b.first + t, head)
    requires forall j :: 0 <= j < |keys| ==> keys[j] == TileRow(l, true, KvHead(l, head), first + j, end)
    ensures FlashScores(scores, l, head, b, first, end)
    ensures forall t :: 0 <= t < b.count ==> |scores[t]| == |keys|
  {
    hide QueryRow, KvHead, TileRow, Dot, Score, Scores, MaskedScore;
    scores := seq(b.count, t => []);
    for j := 0 to |keys|
      invariant FlashScores(scores, l, head, b, first, end)
      invariant forall t :: 0 <= t < b.count ==> |scores[t]| == j
    {
      var dots := QuadDots(queries, keys[j], quarter);
      ghost var was := scores;
      scores := seq(b.count, t requires 0 <= t < b.count =>
        scores[t] + [MaskedScore(l, b.first + t, first + j, end, dots[t])]);
      forall t {:trigger scores[t]} | 0 <= t < b.count ensures FlashRow(scores[t], l, b.first + t, head, first, end) {
        MaskedScoreIsScore(l, b.first + t, head, first + j, end, dots[t]);
        assert FlashRow(was[t], l, b.first + t, head, first, end);
      }
    }
  }

  // ----- the update -----

  lemma {:induction false} NothingVisible(scores: seq<Bound>, s: seq<real>, at: nat, end: nat, n: nat)
    requires TileOf(scores, s, at, end) && n <= |scores| && end <= at
    ensures Fold(MAX, NegInf, scores, n) == NegInf
  {
    if n != 0 {
      NothingVisible(scores, s, at, end, n - 1);
      assert scores[n - 1] == NegInf;
    }
  }

  /** fmaxf over the tile's scores, one after the other. */
  method TileMax(scores: seq<Bound>) returns (m: Bound)
    ensures m == Fold(MAX, NegInf, scores, |scores|)
  {
    m := NegInf;
    for j := 0 to |scores|
      invariant m == Fold(MAX, NegInf, scores, j)
    {
      m := MaxBound(m, scores[j]);
    }
  }

  /** The weighted values of a tile with something visible, on the rescaled accumulator. */
  method AddTile(exp: real -> real, scores: seq<Bound>, values: seq<Vec>, size: nat, newMax: real, baseSum: real,
                 base: Vec, ghost s: seq<real>, ghost v: seq<Vec>, ghost at: nat, ghost end: nat) returns (sum: real,
                 acc: Vec)
    requires at < end <= |s| == |v| && Sized(v, size) && |base| == size && |scores| == |values|
    requires TileOf(scores, s, at, end)
    requires forall j :: 0 <= j < |values| && at + j < end ==> values[j] == v[at + j]
    ensures sum == baseSum + SumExp(exp, s, newMax, at, Min(at + |scores|, end))
    ensures acc == Axpy(1.0, AccExp(exp, s, v, size, newMax, at, Min(at + |scores|, end)), base)
  {
    hide Axpy;
    sum, acc := baseSum, base;
    AxpyZero(1.0, base);
    for j := 0 to |scores|
      invariant sum == baseSum + SumExp(exp, s, newMax, at, Min(at + j, end))
      invariant acc == Axpy(1.0, AccExp(exp, s, v, size, newMax, at, Min(at + j, end)), base)
    {
      assert scores[j] == if at + j < end then Fin(s[at + j]) else NegInf;
      if scores[j].Fin? {
        var p := exp(scores[j].value - newMax);
        sum := sum + p;
        AddVectors(p, v[at + j], AccExp(exp, s, v, size, newMax, at, at + j), base);
        acc := Axpy(p, values[j], acc);
      }
    }
  }

  /** One token's update for one tile. */
  method FlashUpdate(exp: real -> real, l: Launch, token: nat, head: nat, ghost start: nat, first: nat, ghost end: nat,
                     scores: seq<Bound>, values: seq<Vec>, state: Partial) returns (r: Partial)
    requires Exponential(exp) && l.Valid() && token < l.tokens && head < l.heads && Length(l, token) <= l.capacity
    requires start <= first < end <= l.capacity && |scores| == |values| && FlashRow(scores, l, token, head, first, end)
    requires forall j :: 0 <= j < |values| ==> values[j] == TileRow(l, false, KvHead(l, head), first + j, end)
    requires state == Seen(exp, l, token, head, start, first) && 0 < |scores|
    ensures r == Seen(exp, l, token, head, start, Min(first + |scores|, end))
  {
    hide Exponential, Score, Scores, KvHead, ValueRow, KeyRow, Summary, Exact, MaxScore, SumExp, AccExp, Axpy, Scale,
         Fold, TileOf, Fade;
    var n := Length(l, token);
    ghost var visible := Min(end, n);
    ghost var s, v := Scores(l, token, head, n), Values(l, head, n);
    r := state;
    var tileMax := TileMax(scores);
    if visible <= first {
      NothingVisible(scores, s, first, visible, |scores|);
    } else {
      TileMaxIsMax(scores, s, first, visible, |scores|);
    }
    ghost var next := Min(first + |scores|, visible);
    if first < visible { MaxScoreIsMax(s, first, next); }
    if tileMax.Fin? {
      ExactFrom(exp, l, token, head, start, first, n);
      var newMax := MaxBound(state.max, tileMax);
      var scale := Fade(exp, state.max, newMax.value);
      var sum, acc := AddTile(exp, scores, values, l.dim, newMax.value, state.sum * scale, Scale(scale, state.acc), s,
                              v, first, visible);
      TileRescales(exp, s, v, l.dim, start, first, next, state, newMax.value);
      ExactFrom(exp, l, token, head, start, next, n);
      r := Partial(newMax, sum, acc);
    }
  }

  // ----- the kernel -----

  /** The query registers: zero where the block has no token. */
  method LoadQueries(l: Launch, head: nat, b: Span, size: nat) returns (queries: seq<Vec>)
    requires l.Valid() && head < l.heads && b.first + b.count <= l.tokens && b.count <= size
    ensures |queries| == size && forall q :: 0 <= q < size ==> |queries[q]| == l.dim
    ensures forall t {:trigger queries[t]} :: 0 <= t < b.count ==> queries[t] == QueryRow(l, b.first + t, head)
  {
    hide QueryRow;
    queries := [];
    for q := 0 to size
      invariant |queries| == q && forall i :: 0 <= i < q ==> |queries[i]| == l.dim
      invariant forall t {:trigger queries[t]} :: 0 <= t < b.count && t < q ==>
        queries[t] == QueryRow(l, b.first + t, head)
    {
      queries := queries + [if q < b.count then QueryRow(l, b.first + q, head) else Zero(l.dim)];
    }
  }

  /** One tile for the whole block. */
  method FlashTile(exp: real -> real, l: Launch, head: nat, b: Span, queries: seq<Vec>, ghost start: nat, first: nat,
                   end: nat, granules: nat, grain: nat, rounds: nat, columns: nat, quarter: nat,
                   states: seq<Partial>) returns (r: seq<Partial>)
    requires Exponential(exp) && l.Valid() && head < l.heads && b.first + b.count <= l.tokens
    requires Longest(l, b) <= l.capacity
    requires start <= first < end <= l.capacity && Grained(l, granules, grain) && 0 < columns
    requires Lanes(columns, granules) == Lanes(rounds, LANES)
    requires 0 < quarter && l.dim == Lanes(4, quarter) && b.count <= |queries|
    requires forall q :: 0 <= q < |queries| ==> |queries[q]| == l.dim
    requires forall t {:trigger queries[t]} :: 0 <= t < b.count ==> queries[t] == QueryRow(l, b.first + t, head)
    requires |states| == b.count && StatesAt(exp, states, l, head, b, start, first)
    ensures |r| == b.count && StatesAt(exp, r, l, head, b, start, Min(first + columns, end))
  {
    hide Exponential, Grained, Lanes, QueryRow, KvHead, TileRow, Seen, FlashRow;
    var keys := LoadRows(l, true, KvHead(l, head), first, end, granules, grain, rounds, columns);
    var values := LoadRows(l, false, KvHead(l, head), first, end, granules, grain, rounds, columns);
    var scores := FlashTileScores(l, head, b, queries, keys, first, end, quarter);
    r := states;
    for t := 0 to b.count
      invariant StatesSplit(exp, r, l, head, b, start, first, Min(first + columns, end), t)
    {
      var state := FlashUpdate(exp, l, b.first + t, head, start, first, end, scores[t], values, r[t]);
      r := r[t := state];
    }
  }

  /** The walk over the split's tiles, then one store for each token. */
  method Flash(exp: real -> real, l: Launch, w: Workspace, size: nat, columns: nat, head: nat, index: nat, split: nat,
               granules: nat, grain: nat, rounds: nat, quarter: nat)
    requires Exponential(exp) && l.Valid() && Fits(w, l) && 0 < columns && 0 < quarter && l.dim == Lanes(4, quarter)
    requires Grained(l, granules, grain) && Lanes(columns, granules) == Lanes(rounds, LANES)
    requires head < l.heads && index * size < l.tokens && split < l.splits
    modifies w.max, w.sum, w.acc
    ensures l.base + l.tokens <= l.capacity ==>
      BlockDone(exp, w, l, ChunkSize(l.base + l.tokens, l.splits), split, head, SpanAt(l, size, index))
    ensures var b := SpanAt(l, size, index);
      forall o :: 0 <= o < SlotCount(l) && (!OfBlock(l, split, head, b, o) || l.capacity < l.base + l.tokens) ==>
        Slot(w, l, o) == old(Slot(w, l, o))
  {
    hide Exponential, Grained, Lanes, Fits, Slot, Exact, ItemState, Seen, SlotIndex, SlotCount, ChunkSize, BlockDone,
         StatesAt, OfBlock, QueryRow;
    var b := SpanAt(l, size, index);
    var longest := l.base + l.tokens;
    if longest > l.capacity { return; }
    var chunk := ChunkSize(longest, l.splits);
    var start := split * chunk;
    var end := Min(start + chunk, longest);
    var queries := LoadQueries(l, head, b, size);
    var states := seq(b.count, t => Empty(l.dim));
    StatesBegin(exp, states, l, head, b, start);
    var first := start;
    while first < end
      invariant start <= first && |states| == b.count
      invariant (start < longest ==> StatesAt(exp, states, l, head, b, start, Min(first, end)))
      invariant longest <= start ==> forall t :: 0 <= t < b.count ==> states[t] == Empty(l.dim)
      modifies {}
    {
      states := FlashTile(exp, l, head, b, queries, start, first, end, granules, grain, rounds, columns, quarter,
                          states);
      first := first + columns;
    }
    StatesEnd(exp, states, l, chunk, split, head, b, longest);
    FinishBlock(exp, l, w, chunk, split, head, b, states);
  }
}
