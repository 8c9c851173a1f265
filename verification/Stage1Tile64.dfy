/** Candidate D: one wave takes 64 positions at once, one position a lane, and reduces the tile's
    maximum and sum across the lanes. */
module Stage1Tile64 {
  import opened LinearAlgebra
  import opened ExpLog
  import opened Softmax
  import opened Butterfly
  import opened Wave64
  import opened TileSoftmax
  import opened AttentionProblem
  import opened Stage1
  import Attention

  /** One lane's whole inner product. */
  method RowDot(query: Vec, key: Vec) returns (dot: real)
    requires |query| == |key|
    ensures dot == Dot(query, key, |key|)
  {
    hide Dot;
    DotEmpty(query, key);
    dot := 0.0;
    for d := 0 to |key|
      invariant dot == Dot(query, key, d)
    {
      dot := Accumulate(dot, query[d], key[d], query, key, d);
    }
  }

  /** The scores of one tile, one a lane; lanes beyond the split hold -INFINITY. */
  method TileScores(l: Launch, token: nat, head: nat, tile: nat, end: nat, ghost s: seq<real>)
    returns (scores: seq<Bound>)
    requires l.Valid() && token < l.tokens && head < l.heads && Length(l, token) <= l.capacity
    requires s == Scores(l, token, head, Length(l, token)) && end <= Length(l, token)
    ensures |scores| == LANES && TileOf(scores, s, tile, end)
  {
    hide QueryRow, KeyRow, KvHead, Dot;
    var query := QueryRow(l, token, head);
    scores := [];
    for lane := 0 to LANES
      invariant |scores| == lane && TileOf(scores, s, tile, end)
    {
      var pos := tile + lane;
      var score := NegInf;
      if pos < end && pos < Length(l, token) {
        var dot := RowDot(query, KeyRow(l, KvHead(l, head), pos));
        score := Fin(dot * l.scale);
      }
      scores := scores + [score];
    }
  }

  /** exp(score - tileMax) on every visible lane. */
  method TileWeights(exp: real -> real, scores: seq<Bound>, tileMax: real, ghost s: seq<real>, ghost at: nat,
                     ghost end: nat)
    returns (weights: seq<real>)
    requires |scores| == LANES && TileOf(scores, s, at, end)
    ensures |weights| == LANES && WeightsOf(exp, weights, s, tileMax, at, end)
  {
    weights := [];
    for lane := 0 to LANES
      invariant |weights| == lane && WeightsOf(exp, weights, s, tileMax, at, end)
    {
      assert scores[lane] == if at + lane < end then Fin(s[at + lane]) else NegInf;
      weights := weights + [Fade(exp, scores[lane], tileMax)];
    }
  }

  /** acc += weight * value over the visible positions of the tile. */
  method TileValues(exp: real -> real, l: Launch, head: nat, tile: nat, end: nat, weights: seq<real>, beta: real,
                    tileMax: real, base: Vec, ghost s: seq<real>, ghost v: seq<Vec>) returns (acc: Vec)
    requires Exponential(exp) && l.Valid() && head < l.heads && tile < end <= |s| == |v| <= l.capacity
    requires v == Values(l, head, |v|) && |base| == l.dim
    requires |weights| == LANES && WeightsOf(exp, weights, s, tileMax, tile, end) && beta > 0.0
    ensures acc == Axpy(beta, AccExp(exp, s, v, l.dim, tileMax, tile, Min(tile + LANES, end)), base)
  {
    hide Exponential, ValueRow, KvHead, Axpy;
    acc := base;
    AxpyZero(beta, base);
    var count := Min(LANES, end - tile);
    for j := 0 to count
      invariant acc == Axpy(beta, AccExp(exp, s, v, l.dim, tileMax, tile, tile + j), base)
    {
      var weight := weights[j] * beta;
      WeightPositive(exp, s[tile + j] - tileMax, weights[j], beta);
      TileAccStep(beta, weights[j], weight, v[tile + j], AccExp(exp, s, v, l.dim, tileMax, tile, tile + j), base);
      if weight > 0.0 {
        acc := Axpy(weight, ValueRow(l, KvHead(l, head), tile + j), acc);
      }
    }
  }

  lemma WeightPositive(exp: real -> real, x: real, p: real, beta: real)
    requires Exponential(exp) && p == exp(x) && beta > 0.0
    ensures p * beta > 0.0
  {
    hide Exponential;
    Attention.ExpPositive(exp, x);
    PositiveProduct(p, beta);
  }

  lemma PositiveProduct(a: real, b: real)
    requires a > 0.0 && b > 0.0
    ensures a * b > 0.0
  {}

  /** One tile of the loop. */
  method Tile(exp: real -> real, l: Launch, token: nat, head: nat, ghost start: nat, tile: nat, end: nat,
              state: Partial, ghost s: seq<real>, ghost v: seq<Vec>) returns (r: Partial)
    requires Exponential(exp) && l.Valid() && token < l.tokens && head < l.heads && Length(l, token) <= l.capacity
    requires s == Scores(l, token, head, Length(l, token)) && v == Values(l, head, Length(l, token))
    requires start <= tile < end <= Length(l, token)
    requires state == Summary(exp, s, v, l.dim, start, tile)
    ensures r == Summary(exp, s, v, l.dim, start, Min(tile + LANES, end))
  {
    hide Exponential, Score, ValueRow, KvHead, Summary, MaxScore, SumExp, AccExp, Axpy, Scale, Fold, TileOf, WeightsOf,
         Fade;
    var next := Min(tile + LANES, end);
    var scores := TileScores(l, token, head, tile, end, s);
    var tileMax := WaveMax(scores);
    TileMaxIsMax(scores, s, tile, end, LANES);
    MaxScoreIsMax(s, tile, next);
    var weights := TileWeights(exp, scores, tileMax.value, s, tile, end);
    var tileSum := WaveSum(weights);
    TileSumIsSum(exp, weights, s, tileMax.value, tile, end, LANES);
    var newMax := MaxBound(state.max, tileMax);
    var alpha := Fade(exp, state.max, newMax.value);
    var beta := exp(tileMax.value - newMax.value);
    Attention.ExpPositive(exp, tileMax.value - newMax.value);
    var sum := state.sum * alpha + tileSum * beta;
    var acc := TileValues(exp, l, head, tile, end, weights, beta, tileMax.value, Scale(alpha, state.acc), s, v);
    TileMerges(exp, s, v, l.dim, start, tile, next, state, newMax.value, tileMax.value);
    r := Partial(newMax, sum, acc);
  }

  /** Every tile of the split in turn, then the store. */
  method Blocked(exp: real -> real, l: Launch, w: Workspace, head: nat, token: nat, split: nat)
    requires Exponential(exp) && l.Valid() && Fits(w, l) && head < l.heads && token < l.tokens && split < l.splits
    modifies w.max, w.sum, w.acc
    ensures Length(l, token) <= l.capacity ==>
      ItemDone(exp, w, l, ChunkSize(Length(l, token), l.splits), split, token, head)
    ensures forall o ::
      0 <= o < SlotCount(l) && (o != SlotIndex(l, split, token, head) || l.capacity < Length(l, token)) ==>
      Slot(w, l, o) == old(Slot(w, l, o))
  {
    hide Exponential, Fits, Slot, Exact, ItemState, Summary, Score, ValueRow, KvHead, SlotIndex, SlotCount, Cut,
         ChunkSize, ItemDone;
    var length := Length(l, token);
    if length > l.capacity { return; }
    var chunk := ChunkSize(length, l.splits);
    var start := split * chunk;
    var end := if start + chunk < length then start + chunk else length;
    ItemRange(exp, l, chunk, split, token, head);
    var state := Empty(l.dim);
    if start >= length {
      FinishItem(exp, l, w, chunk, split, token, head, state);
      return;
    }
    ghost var s, v := Scores(l, token, head, length), Values(l, head, length);
    ExactNone(exp, l, token, head, start);
    ExactFrom(exp, l, token, head, start, start, length);
    var tile := start;
    while tile < end
      invariant start <= tile && state == Summary(exp, s, v, l.dim, start, Min(tile, end))
      modifies {}
    {
      state := Tile(exp, l, token, head, start, tile, end, state, s, v);
      tile := tile + LANES;
    }
    ExactFrom(exp, l, token, head, start, end, length);
    FinishItem(exp, l, w, chunk, split, token, head, state);
  }
}
