/** Two further half-wave kernels: one scales the query once, before the loop; one walks the
    caches with incremented pointers instead of recomputed addresses. */
module Stage1Streams {
  import opened LinearAlgebra
  import opened Layout
  import opened ExpLog
  import opened Softmax
  import opened Butterfly
  import opened WaveDot
  import opened AttentionProblem
  import opened Stage1
  import opened Stage1HalfWave

  // ----- the query scaled in advance -----

  lemma ScaledQueryScores(l: Launch, token: nat, head: nat, pos: nat)
    requires l.Valid() && token < l.tokens && head < l.heads && pos < l.capacity
    ensures Dot(Scale(l.scale, QueryRow(l, token, head)), KeyRow(l, KvHead(l, head), pos), l.dim)
         == Score(l, token, head, pos)
  {
    hide QueryRow, KeyRow, KvHead, Dot, Scale;
    DotScale(l.scale, QueryRow(l, token, head), KeyRow(l, KvHead(l, head), pos), l.dim);
  }

  /** The scores of `n` positions for both heads, with nothing left to multiply after the reduction. */
  method StageScaledScores(l: Launch, token: nat, head0: nat, head1: nat, scaled: seq<Vec>, pos: nat, n: nat, k: nat,
                           width: nat)
    returns (scores0: seq<real>, scores1: seq<real>)
    requires l.Valid() && token < l.tokens && head0 < l.heads && head1 < l.heads && pos + n <= l.capacity
    requires LaneShape(l, k, width)
    requires scaled == [Scale(l.scale, QueryRow(l, token, head0)), Scale(l.scale, QueryRow(l, token, head1))]
    ensures |scores0| == |scores1| == n
    ensures ScoresAt(scores0, l, token, head0, pos) && ScoresAt(scores1, l, token, head1, pos)
  {
    hide Score, KvHead, QueryRow, KeyRow, Pow2, Lanes, Dot, Scale;
    scores0, scores1 := [], [];
    for u := 0 to n
      invariant |scores0| == |scores1| == u
      invariant ScoresAt(scores0, l, token, head0, pos) && ScoresAt(scores1, l, token, head1, pos)
    {
      var keys := [KeyRow(l, KvHead(l, head0), pos + u), KeyRow(l, KvHead(l, head1), pos + u)];
      var dots := WaveDots(scaled, keys, k, width);
      ScaledQueryScores(l, token, head0, pos + u);
      ScaledQueryScores(l, token, head1, pos + u);
      assert dots[0] == Dot(scaled[0], keys[0], |scaled[0]|) && dots[1] == Dot(scaled[1], keys[1], |scaled[1]|);
      scores0, scores1 := scores0 + [dots[0]], scores1 + [dots[1]];
    }
  }

  /** Ultrafast: scaled query, unrolled main loop, then the remainder. */
  method Ultrafast(exp: real -> real, l: Launch, w: Workspace, unroll: nat, pair: nat, token: nat, split: nat, k: nat,
                   width: nat)
    requires Exponential(exp) && l.Valid() && Fits(w, l) && LaneShape(l, k, width) && 0 < unroll
    requires 2 * pair + 1 < l.heads && token < l.tokens && split < l.splits
    modifies w.max, w.sum, w.acc
    ensures Length(l, token) <= l.capacity ==>
      ItemDone(exp, w, l, ChunkSize(Length(l, token), l.splits), split, token, 2 * pair)
    ensures Length(l, token) <= l.capacity ==>
      ItemDone(exp, w, l, ChunkSize(Length(l, token), l.splits), split, token, 2 * pair + 1)
    ensures forall o ::
      0 <= o < SlotCount(l) && (!OfPair(l, split, token, pair, o) || l.capacity < Length(l, token)) ==>
      Slot(w, l, o) == old(Slot(w, l, o))
  {
    hide Exponential, LaneShape, Fits, Slot, Exact, ItemState, Score, ValueRow, KvHead, QueryRow, Scale, SlotIndex,
         SlotCount, Cut, ChunkSize, ItemDone, ScoresAt, ValuesAt;
    var length := Length(l, token);
    if length > l.capacity { return; }
    var head0, head1 := 2 * pair, 2 * pair + 1;
    var chunk := ChunkSize(length, l.splits);
    var start := split * chunk;
    var end := if start + chunk < length then start + chunk else length;
    ItemRange(exp, l, chunk, split, token, head0);
    ItemRange(exp, l, chunk, split, token, head1);
    var state0, state1 := Empty(l.dim), Empty(l.dim);
    if start < length {
      ExactNone(exp, l, token, head0, start);
      ExactNone(exp, l, token, head1, start);
      var scaled := [Scale(l.scale, QueryRow(l, token, head0)), Scale(l.scale, QueryRow(l, token, head1))];
      var pos := start;
      while pos + unroll <= end
        invariant start <= pos <= end
        invariant state0 == Exact(exp, l, token, head0, start, pos)
        invariant state1 == Exact(exp, l, token, head1, start, pos)
        modifies {}
      {
        var scores0, scores1 := StageScaledScores(l, token, head0, head1, scaled, pos, unroll, k, width);
        var values0 := StageValues(l, head0, pos, unroll);
        var values1 := StageValues(l, head1, pos, unroll);
        state0 := Consume(exp, l, token, head0, start, pos, scores0, values0, state0);
        state1 := Consume(exp, l, token, head1, start, pos, scores1, values1, state1);
        pos := pos + unroll;
      }
      while pos < end
        invariant start <= pos <= end
        invariant state0 == Exact(exp, l, token, head0, start, pos)
        invariant state1 == Exact(exp, l, token, head1, start, pos)
        modifies {}
      {
        var scores0, scores1 := StageScaledScores(l, token, head0, head1, scaled, pos, 1, k, width);
        var values0 := StageValues(l, head0, pos, 1);
        var values1 := StageValues(l, head1, pos, 1);
        state0 := Consume(exp, l, token, head0, start, pos, scores0, values0, state0);
        state1 := Consume(exp, l, token, head1, start, pos, scores1, values1, state1);
        pos := pos + 1;
      }
    }
    FinishPair(exp, l, w, chunk, split, token, head0, head1, state0, state1);
  }

  // ----- incremented pointers -----

  /** The address of a cached row; keys and values share it. */
  function RowStart(l: Launch, kv: nat, pos: nat): nat {
    At(At(kv, pos, l.capacity), 0, l.dim)
  }

  /** Both sub-waves' cursors. */
  datatype Cursors = Cursors(first: nat, second: nat)

  /** The cursors stand on position `pos`. */
  ghost predicate Standing(c: Cursors, l: Launch, head0: nat, head1: nat, pos: nat)
    requires l.Valid() && head0 < l.heads && head1 < l.heads
  {
    c.first == RowStart(l, KvHead(l, head0), pos) && c.second == RowStart(l, KvHead(l, head1), pos)
  }

  /** Moving a cursor by n rows is the address of n positions further. */
  lemma RowsAhead(l: Launch, kv: nat, pos: nat, n: nat)
    ensures RowStart(l, kv, pos) + n * l.dim == RowStart(l, kv, pos + n)
  {
    var row := At(kv, pos, l.capacity);
    assert At(kv, pos + n, l.capacity) == row + n;
    assert (row + n) * l.dim == row * l.dim + n * l.dim;
  }

  method Advance(c: Cursors, l: Launch, ghost head0: nat, ghost head1: nat, ghost pos: nat, n: nat) returns (r: Cursors)
    requires l.Valid() && head0 < l.heads && head1 < l.heads && Standing(c, l, head0, head1, pos)
    ensures Standing(r, l, head0, head1, pos + n)
  {
    hide RowStart, KvHead;
    RowsAhead(l, KvHead(l, head0), pos, n);
    RowsAhead(l, KvHead(l, head1), pos, n);
    r := Cursors(c.first + n * l.dim, c.second + n * l.dim);
  }

  /** Read one row of each cache at a cursor plus `u` rows. */
  method ReadRows(l: Launch, cursor: nat, u: nat, ghost head: nat, ghost pos: nat) returns (key: Vec, value: Vec)
    requires l.Valid() && head < l.heads && pos + u < l.capacity && cursor == RowStart(l, KvHead(l, head), pos)
    ensures key == KeyRow(l, KvHead(l, head), pos + u) && value == ValueRow(l, KvHead(l, head), pos + u)
  {
    RowsAhead(l, KvHead(l, head), pos, u);
    RowInside(KvHead(l, head), l.kvHeads, pos + u, l.capacity, l.dim);
    var row := cursor + u * l.dim;
    hide KvHead, At;
    key, value := l.keyCache[row..row + l.dim], l.valueCache[row..row + l.dim];
  }

  /** One position at the cursors: both heads' scores and values. */
  method StreamPosition(l: Launch, token: nat, head0: nat, head1: nat, c: Cursors, u: nat, ghost pos: nat, k: nat,
                        width: nat)
    returns (scores: seq<real>, value0: Vec, value1: Vec)
    requires l.Valid() && token < l.tokens && head0 < l.heads && head1 < l.heads && pos + u < l.capacity
    requires LaneShape(l, k, width)
    requires Standing(c, l, head0, head1, pos)
    ensures |scores| == 2 && scores[0] == Score(l, token, head0, pos + u)
    ensures scores[1] == Score(l, token, head1, pos + u)
    ensures value0 == ValueRow(l, KvHead(l, head0), pos + u) && value1 == ValueRow(l, KvHead(l, head1), pos + u)
  {
    hide KvHead, QueryRow, KeyRow, ValueRow, Pow2, Lanes, Dot, RowStart;
    var key0, key1;
    key0, value0 := ReadRows(l, c.first, u, head0, pos);
    key1, value1 := ReadRows(l, c.second, u, head1, pos);
    var queries := [QueryRow(l, token, head0), QueryRow(l, token, head1)];
    var keys := [key0, key1];
    var dots := WaveDots(queries, keys, k, width);
    assert dots[0] == Dot(queries[0], keys[0], |queries[0]|) && dots[1] == Dot(queries[1], keys[1], |queries[1]|);
    scores := [dots[0] * l.scale, dots[1] * l.scale];
  }

  method StreamGroup(l: Launch, token: nat, head0: nat, head1: nat, c: Cursors, ghost pos: nat, n: nat, k: nat,
                     width: nat)
    returns (scores0: seq<real>, scores1: seq<real>, values0: seq<Vec>, values1: seq<Vec>)
    requires l.Valid() && token < l.tokens && head0 < l.heads && head1 < l.heads && pos + n <= l.capacity
    requires LaneShape(l, k, width)
    requires Standing(c, l, head0, head1, pos)
    ensures |scores0| == |scores1| == |values0| == |values1| == n
    ensures ScoresAt(scores0, l, token, head0, pos) && ScoresAt(scores1, l, token, head1, pos)
    ensures ValuesAt(values0, l, head0, pos) && ValuesAt(values1, l, head1, pos)
    ensures forall u :: 0 <= u < n ==> |values0[u]| == |values1[u]| == l.dim
  {
    hide Score, ValueRow, KvHead, LaneShape, Standing;
    scores0, scores1, values0, values1 := [], [], [], [];
    for u := 0 to n
      invariant |scores0| == |scores1| == |values0| == |values1| == u
      invariant ScoresAt(scores0, l, token, head0, pos) && ScoresAt(scores1, l, token, head1, pos)
      invariant ValuesAt(values0, l, head0, pos) && ValuesAt(values1, l, head1, pos)
    {
      var scores, value0, value1 := StreamPosition(l, token, head0, head1, c, u, pos, k, width);
      scores0, scores1 := scores0 + [scores[0]], scores1 + [scores[1]];
      values0, values1 := values0 + [value0], values1 + [value1];
    }
  }

  /** Dual-issue: keys and values of a group are loaded together through the cursors. */
  method Streamed(exp: real -> real, l: Launch, w: Workspace, unroll: nat, pair: nat, token: nat, split: nat, k: nat,
                  width: nat)
    requires Exponential(exp) && l.Valid() && Fits(w, l) && LaneShape(l, k, width) && 0 < unroll
    requires 2 * pair + 1 < l.heads && token < l.tokens && split < l.splits
    modifies w.max, w.sum, w.acc
    ensures Length(l, token) <= l.capacity ==>
      ItemDone(exp, w, l, ChunkSize(Length(l, token), l.splits), split, token, 2 * pair)
    ensures Length(l, token) <= l.capacity ==>
      ItemDone(exp, w, l, ChunkSize(Length(l, token), l.splits), split, token, 2 * pair + 1)
    ensures forall o ::
      0 <= o < SlotCount(l) && (!OfPair(l, split, token, pair, o) || l.capacity < Length(l, token)) ==>
      Slot(w, l, o) == old(Slot(w, l, o))
  {
    hide Exponential, LaneShape, Fits, Slot, Exact, ItemState, Score, ValueRow, KvHead, RowStart, SlotIndex, SlotCount,
         Cut, ChunkSize, ItemDone, ScoresAt, ValuesAt;
    var length := Length(l, token);
    if length > l.capacity { return; }
    var head0, head1 := 2 * pair, 2 * pair + 1;
    var chunk := ChunkSize(length, l.splits);
    var start := split * chunk;
    var end := if start + chunk < length then start + chunk else length;
    ItemRange(exp, l, chunk, split, token, head0);
    ItemRange(exp, l, chunk, split, token, head1);
    var state0, state1 := Empty(l.dim), Empty(l.dim);
    if start < length {
      ExactNone(exp, l, token, head0, start);
      ExactNone(exp, l, token, head1, start);
      var pos := start;
      var c := Cursors(RowStart(l, KvHead(l, head0), start), RowStart(l, KvHead(l, head1), start));
      while pos + unroll <= end
        invariant start <= pos <= end && Standing(c, l, head0, head1, pos)
        invariant state0 == Exact(exp, l, token, head0, start, pos)
        invariant state1 == Exact(exp, l, token, head1, start, pos)
        modifies {}
      {
        var scores0, scores1, values0, values1 := StreamGroup(l, token, head0, head1, c, pos, unroll, k, width);
        state0 := Consume(exp, l, token, head0, start, pos, scores0, values0, state0);
        state1 := Consume(exp, l, token, head1, start, pos, scores1, values1, state1);
        c := Advance(c, l, head0, head1, pos, unroll);
        pos := pos + unroll;
      }
      while pos < end
        invariant start <= pos <= end && Standing(c, l, head0, head1, pos)
        invariant state0 == Exact(exp, l, token, head0, start, pos)
        invariant state1 == Exact(exp, l, token, head1, start, pos)
        modifies {}
      {
        var scores0, scores1, values0, values1 := StreamGroup(l, token, head0, head1, c, pos, 1, k, width);
        state0 := Consume(exp, l, token, head0, start, pos, scores0, values0, state0);
        state1 := Consume(exp, l, token, head1, start, pos, scores1, values1, state1);
        c := Advance(c, l, head0, head1, pos, 1);
        pos := pos + 1;
      }
    }
    FinishPair(exp, l, w, chunk, split, token, head0, head1, state0, state1);
  }
}
