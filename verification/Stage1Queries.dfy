/** Query-tiled kernels: one wave walks a split once for a whole block of query tokens. */
module Stage1Queries {
  import opened LinearAlgebra
  import opened ExpLog
  import opened Softmax
  import opened OnlineSoftmax
  import opened TileSoftmax
  import opened AttentionProblem
  import opened Stage1
  import opened QueryBlocks

  function SpanAt(l: Launch, size: nat, index: nat): (b: Span)
    requires index * size < l.tokens
    ensures b.first == index * size && b.count == Min(size, l.tokens - index * size) && b.first + b.count <= l.tokens
  {
    Span(index * size, Min(size, l.tokens - index * size))
  }

  /** The causal length of the block's last token. */
  function Longest(l: Launch, b: Span): nat { l.base + b.first + b.count }

  // ----- candidate C: one position at a time -----

  /** The update of one token, skipped where the position is not yet visible to it. */
  method PushVisible(exp: real -> real, l: Launch, token: nat, head: nat, ghost start: nat, pos: nat, state: Partial,
                     k: nat, width: nat)
    returns (r: Partial)
    requires Exponential(exp) && l.Valid() && LaneShape(l, k, width) && token < l.tokens && head < l.heads
    requires Length(l, token) <= l.capacity && start <= pos && state == Seen(exp, l, token, head, start, pos)
    ensures r == Seen(exp, l, token, head, start, pos + 1)
  {
    hide Exponential, LaneShape, Seen, Push, Score, ValueRow, KvHead;
    SeenNext(exp, l, token, head, start, pos);
    r := state;
    if pos < Length(l, token) {
      var scores := PositionScores(l, token, [head], pos, k, width);
      r := OnlineUpdate(exp, state, scores[0], ValueRow(l, KvHead(l, head), pos));
    }
  }

  /** One cached position, offered to every token of the block. */
  method OfferPosition(exp: real -> real, l: Launch, head: nat, b: Span, ghost start: nat, pos: nat,
                       states: seq<Partial>, k: nat, width: nat)
    returns (r: seq<Partial>)
    requires Exponential(exp) && l.Valid() && LaneShape(l, k, width) && head < l.heads
    requires b.first + b.count <= l.tokens && Longest(l, b) <= l.capacity && start <= pos
    requires StatesAt(exp, states, l, head, b, start, pos)
    ensures |r| == b.count && StatesAt(exp, r, l, head, b, start, pos + 1)
  {
    hide Exponential, LaneShape, Seen;
    r := states;
    for t := 0 to b.count
      invariant StatesSplit(exp, r, l, head, b, start, pos, pos + 1, t)
    {
      var state := PushVisible(exp, l, b.first + t, head, start, pos, r[t], k, width);
      r := r[t := state];
    }
  }

  /** The walk over the split, then one store for each token. */
  method QueryTiled(exp: real -> real, l: Launch, w: Workspace, size: nat, head: nat, index: nat, split: nat, k: nat,
                    width: nat)
    requires Exponential(exp) && l.Valid() && Fits(w, l) && LaneShape(l, k, width)
    requires head < l.heads && index * size < l.tokens && split < l.splits
    modifies w.max, w.sum, w.acc
    ensures var b := SpanAt(l, size, index); Longest(l, b) <= l.capacity ==>
      BlockDone(exp, w, l, ChunkSize(Longest(l, b), l.splits), split, head, b)
    ensures var b := SpanAt(l, size, index);
      forall o :: 0 <= o < SlotCount(l) && (!OfBlock(l, split, head, b, o) || l.capacity < Longest(l, b)) ==>
        Slot(w, l, o) == old(Slot(w, l, o))
  {
    hide Exponential, LaneShape, Fits, Slot, Exact, ItemState, Seen, SlotIndex, SlotCount, ChunkSize, BlockDone,
         StatesAt, OfBlock;
    var b := SpanAt(l, size, index);
    var longest := Longest(l, b);
    if longest > l.capacity { return; }
    var chunk := ChunkSize(longest, l.splits);
    var start := split * chunk;
    var end := Min(start + chunk, longest);
    var states := seq(b.count, t => Empty(l.dim));
    StatesBegin(exp, states, l, head, b, start);
    if start < longest {
      for pos := start to end
        invariant |states| == b.count && StatesAt(exp, states, l, head, b, start, pos)
        modifies {}
      {
        states := OfferPosition(exp, l, head, b, start, pos, states, k, width);
      }
    }
    StatesEnd(exp, states, l, chunk, split, head, b, longest);
    FinishBlock(exp, l, w, chunk, split, head, b, states);
  }

  // ----- candidate H: blocks of positions in registers -----

  /** scores[t][j] belongs to token first + t and position pos + j, -INFINITY where masked. */
  ghost predicate MaskedScores(scores: seq<seq<Bound>>, l: Launch, head: nat, b: Span, pos: nat, end: nat)
    requires l.Valid() && head < l.heads && b.first + b.count <= l.tokens && Longest(l, b) <= l.capacity
  {
    forall t {:trigger scores[t]} :: 0 <= t < |scores| && t < b.count ==>
      MaskedRow(scores[t], l, b.first + t, head, pos, end)
  }

  ghost predicate MaskedRow(row: seq<Bound>, l: Launch, token: nat, head: nat, pos: nat, end: nat)
    requires l.Valid() && head < l.heads && token < l.tokens && Length(l, token) <= l.capacity
  {
    forall j {:trigger row[j]} :: 0 <= j < |row| ==>
      row[j] == if pos + j < Min(end, Length(l, token)) then Fin(Score(l, token, head, pos + j)) else NegInf
  }

  method ScoreRow(l: Launch, token: nat, head: nat, pos: nat, end: nat, n: nat, k: nat, width: nat)
    returns (row: seq<Bound>)
    requires l.Valid() && LaneShape(l, k, width) && token < l.tokens && head < l.heads && Length(l, token) <= l.capacity
    ensures |row| == n && MaskedRow(row, l, token, head, pos, end)
  {
    hide LaneShape, Score;
    row := [];
    for j := 0 to n
      invariant |row| == j && MaskedRow(row, l, token, head, pos, end)
    {
      var score := NegInf;
      if pos + j < Length(l, token) && pos + j < end {
        var scores := PositionScores(l, token, [head], pos + j, k, width);
        score := Fin(scores[0]);
      }
      row := row + [score];
    }
  }

  method ScoreBlock(l: Launch, head: nat, b: Span, pos: nat, end: nat, n: nat, k: nat, width: nat)
    returns (scores: seq<seq<Bound>>)
    requires l.Valid() && LaneShape(l, k, width) && head < l.heads && b.first + b.count <= l.tokens
    requires Longest(l, b) <= l.capacity
    ensures |scores| == b.count && MaskedScores(scores, l, head, b, pos, end)
    ensures forall t :: 0 <= t < b.count ==> |scores[t]| == n
  {
    hide LaneShape, MaskedRow;
    scores := [];
    for t := 0 to b.count
      invariant |scores| == t && MaskedScores(scores, l, head, b, pos, end)
      invariant forall i :: 0 <= i < t ==> |scores[i]| == n
    {
      var row := ScoreRow(l, b.first + t, head, pos, end, n, k, width);
      scores := scores + [row];
    }
  }

  /** The update without a weight in the first branch and without a rescaling in the second. */
  method SparseUpdate(exp: real -> real, p: Partial, score: real, value: Vec) returns (r: Partial)
    requires |p.acc| == |value|
    ensures r == Push(exp, p, score, value)
  {
    hide Axpy, Scale;
    if Above(score, p.max) {
      var alpha := Fade(exp, p.max, score);
      r := Partial(Fin(score), p.sum * alpha + 1.0, Axpy(1.0, value, Scale(alpha, p.acc)));
    } else {
      ScaleOne(p.acc);
      var weight := exp(score - p.max.value);
      r := Partial(p.max, p.sum + weight, Axpy(weight, value, p.acc));
    }
  }

  /** One masked score: pushed when it is a number. */
  method PushUnmasked(exp: real -> real, l: Launch, token: nat, head: nat, ghost start: nat, pos: nat, ghost end: nat,
                      score: Bound, value: Vec, state: Partial)
    returns (r: Partial)
    requires Exponential(exp) && l.Valid() && token < l.tokens && head < l.heads
    requires Length(l, token) <= l.capacity && start <= end <= l.capacity && start <= pos
    requires state == Seen(exp, l, token, head, start, Min(pos, end))
    requires score == if pos < Min(end, Length(l, token)) then Fin(Score(l, token, head, pos)) else NegInf
    requires |value| == l.dim && (pos < end ==> value == ValueRow(l, KvHead(l, head), pos))
    ensures r == Seen(exp, l, token, head, start, Min(pos + 1, end))
  {
    hide Exponential, Seen, Push, Score, ValueRow, KvHead;
    if pos < end { SeenNext(exp, l, token, head, start, pos); }
    r := state;
    if score.Fin? {
      r := SparseUpdate(exp, state, score.value, value);
    }
  }

  /** The value register of one position; zero beyond the split. */
  function ValueOrZero(l: Launch, head: nat, pos: nat, end: nat): (v: Vec)
    requires l.Valid() && head < l.heads && end <= l.capacity
    ensures |v| == l.dim
  {
    if pos < end then ValueRow(l, KvHead(l, head), pos) else Zero(l.dim)
  }

  lemma ColumnScore(scores: seq<seq<Bound>>, l: Launch, head: nat, b: Span, pos: nat, end: nat, t: nat, j: nat)
    requires l.Valid() && head < l.heads && b.first + b.count <= l.tokens && Longest(l, b) <= l.capacity
    requires |scores| == b.count && MaskedScores(scores, l, head, b, pos, end) && t < b.count && j < |scores[t]|
    ensures scores[t][j] == if pos + j < Min(end,
        Length(l, b.first + t)) then Fin(Score(l, b.first + t, head, pos + j)) else NegInf
  {
    hide Score;
    var row := scores[t];
    assert MaskedRow(row, l, b.first + t, head, pos, end);
    assert row[j] == if pos + j < Min(end, Length(l, b.first + t))
      then Fin(Score(l, b.first + t, head, pos + j)) else NegInf;
  }

  /** One position of the block, for every token; a position beyond the split is masked for all. */
  method ConsumeColumn(exp: real -> real, l: Launch, head: nat, b: Span, ghost start: nat, pos: nat, j: nat, end: nat,
                       scores: seq<seq<Bound>>, states: seq<Partial>) returns (r: seq<Partial>)
    requires Exponential(exp) && l.Valid() && head < l.heads
    requires b.first + b.count <= l.tokens && Longest(l, b) <= l.capacity && start <= pos && start <= end <= l.capacity
    requires |scores| == b.count && MaskedScores(scores, l, head, b, pos, end)
    requires forall t :: 0 <= t < b.count ==> j < |scores[t]|
    requires StatesAt(exp, states, l, head, b, start, Min(pos + j, end))
    ensures |r| == b.count && StatesAt(exp, r, l, head, b, start, Min(pos + j + 1, end))
  {
    hide Exponential, Seen, Score, MaskedScores, KvHead, ValueRow;
    r := states;
    var value := ValueOrZero(l, head, pos + j, end);
    for t := 0 to b.count
      invariant StatesSplit(exp, r, l, head, b, start, Min(pos + j, end), Min(pos + j + 1, end), t)
    {
      ColumnScore(scores, l, head, b, pos, end, t, j);
      var state := PushUnmasked(exp, l, b.first + t, head, start, pos + j, end, scores[t][j], value, r[t]);
      r := r[t := state];
    }
  }

  /** A block of `n` positions. */
  method ConsumeBlock(exp: real -> real, l: Launch, head: nat, b: Span, ghost start: nat, pos: nat, end: nat, n: nat,
                      scores: seq<seq<Bound>>, states: seq<Partial>) returns (r: seq<Partial>)
    requires Exponential(exp) && l.Valid() && head < l.heads
    requires b.first + b.count <= l.tokens && Longest(l, b) <= l.capacity && start <= pos <= end <= l.capacity
    requires |scores| == |states| == b.count && MaskedScores(scores, l, head, b, pos, end)
    requires forall t :: 0 <= t < b.count ==> |scores[t]| == n
    requires StatesAt(exp, states, l, head, b, start, pos)
    ensures |r| == b.count && StatesAt(exp, r, l, head, b, start, Min(pos + n, end))
  {
    hide Exponential, StatesAt, MaskedScores;
    r := states;
    for j := 0 to n
      invariant |r| == b.count && StatesAt(exp, r, l, head, b, start, Min(pos + j, end))
    {
      r := ConsumeColumn(exp, l, head, b, start, pos, j, end, scores, r);
    }
  }

  /** The walk in blocks of `columns` positions. */
  method RegisterBlocked(exp: real -> real, l: Launch, w: Workspace, size: nat, columns: nat, head: nat, index: nat,
                         split: nat, k: nat, width: nat)
    requires Exponential(exp) && l.Valid() && Fits(w, l) && LaneShape(l, k, width) && 0 < columns
    requires head < l.heads && index * size < l.tokens && split < l.splits
    modifies w.max, w.sum, w.acc
    ensures var b := SpanAt(l, size, index); Longest(l, b) <= l.capacity ==>
      BlockDone(exp, w, l, ChunkSize(Longest(l, b), l.splits), split, head, b)
    ensures var b := SpanAt(l, size, index);
      forall o :: 0 <= o < SlotCount(l) && (!OfBlock(l, split, head, b, o) || l.capacity < Longest(l, b)) ==>
        Slot(w, l, o) == old(Slot(w, l, o))
  {
    hide Exponential, LaneShape, Fits, Slot, Exact, ItemState, Seen, SlotIndex, SlotCount, ChunkSize, BlockDone,
         StatesAt, OfBlock, MaskedScores;
    var b := SpanAt(l, size, index);
    var longest := Longest(l, b);
    if longest > l.capacity { return; }
    var chunk := ChunkSize(longest, l.splits);
    var start := split * chunk;
    var end := Min(start + chunk, longest);
    var states := seq(b.count, t => Empty(l.dim));
    StatesBegin(exp, states, l, head, b, start);
    if start < longest {
      var pos := start;
      while pos < end
        invariant start <= pos && |states| == b.count && StatesAt(exp, states, l, head, b, start, Min(pos, end))
        modifies {}
      {
        var scores := ScoreBlock(l, head, b, pos, end, columns, k, width);
        states := ConsumeBlock(exp, l, head, b, start, pos, end, columns, scores, states);
        pos := pos + columns;
      }
    }
    StatesEnd(exp, states, l, chunk, split, head, b, longest);
    FinishBlock(exp, l, w, chunk, split, head, b, states);
  }

  // ----- the multi-query kernel: an unrolled main loop and a tail, all masked -----

  method MultiQuery(exp: real -> real, l: Launch, w: Workspace, size: nat, unroll: nat, head: nat, index: nat,
                    split: nat, k: nat, width: nat)
    requires Exponential(exp) && l.Valid() && Fits(w, l) && LaneShape(l, k, width) && 0 < unroll
    requires head < l.heads && index * size < l.tokens && split < l.splits
    modifies w.max, w.sum, w.acc
    ensures var b := SpanAt(l, size, index); Longest(l, b) <= l.capacity ==>
      BlockDone(exp, w, l, ChunkSize(Longest(l, b), l.splits), split, head, b)
    ensures var b := SpanAt(l, size, index);
      forall o :: 0 <= o < SlotCount(l) && (!OfBlock(l, split, head, b, o) || l.capacity < Longest(l, b)) ==>
        Slot(w, l, o) == old(Slot(w, l, o))
  {
    hide Exponential, LaneShape, Fits, Slot, Exact, ItemState, Seen, SlotIndex, SlotCount, ChunkSize, BlockDone,
         StatesAt, OfBlock, MaskedScores;
    var b := SpanAt(l, size, index);
    var longest := Longest(l, b);
    if longest > l.capacity { return; }
    var chunk := ChunkSize(longest, l.splits);
    var start := split * chunk;
    var end := Min(start + chunk, longest);
    var states := seq(b.count, t => Empty(l.dim));
    StatesBegin(exp, states, l, head, b, start);
    if start < longest {
      var pos := start;
      while pos + unroll <= end
        invariant start <= pos <= end && |states| == b.count && StatesAt(exp, states, l, head, b, start, pos)
        modifies {}
      {
        var scores := ScoreBlock(l, head, b, pos, end, unroll, k, width);
        states := ConsumeBlock(exp, l, head, b, start, pos, end, unroll, scores, states);
        pos := pos + unroll;
      }
      while pos < end
        invariant start <= pos <= end && |states| == b.count && StatesAt(exp, states, l, head, b, start, pos)
        modifies {}
      {
        var scores := ScoreBlock(l, head, b, pos, end, 1, k, width);
        states := ConsumeBlock(exp, l, head, b, start, pos, end, 1, scores, states);
        pos := pos + 1;
      }
    }
    StatesEnd(exp, states, l, chunk, split, head, b, longest);
    FinishBlock(exp, l, w, chunk, split, head, b, states);
  }
}
