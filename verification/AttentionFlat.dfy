/** Attention on the flat buffers, position by position, with the source's own index expressions.
    It shares no row, no inner product and no online state with the kernels. */
module AttentionFlat {
  import opened Wrappers
  import opened LinearAlgebra
  import opened Layout
  import opened FlatBuffer
  import opened ExpLog
  import opened Softmax
  import opened AttentionProblem
  import opened Attention
  import opened Stage1

  // ----- the buffers, cell by cell -----

  function QueryCell(l: Launch, token: nat, head: nat, d: nat): real
    requires l.Valid() && token < l.tokens && head < l.heads && d < l.dim
  {
    FlatCell(l.query, l.tokens, l.heads, l.dim, token, head, d)
  }

  function KeyCell(l: Launch, head: nat, pos: nat, d: nat): real
    requires l.Valid() && head < l.heads && pos < l.capacity && d < l.dim
  {
    GroupBound(l.heads, l.kvHeads, head);
    FlatCell(l.keyCache, l.kvHeads, l.capacity, l.dim, head / (l.heads / l.kvHeads), pos, d)
  }

  function ValueCell(l: Launch, head: nat, pos: nat, d: nat): real
    requires l.Valid() && head < l.heads && pos < l.capacity && d < l.dim
  {
    GroupBound(l.heads, l.kvHeads, head);
    FlatCell(l.valueCache, l.kvHeads, l.capacity, l.dim, head / (l.heads / l.kvHeads), pos, d)
  }

  /** The query row of a token and head starts at (token * heads + head) * dim. */
  lemma QueryRowAt(l: Launch, token: nat, head: nat, d: nat)
    requires l.Valid() && token < l.tokens && head < l.heads && d < l.dim
    ensures var i := (token * l.heads + head) * l.dim + d;
      0 <= i < |l.query| && QueryRow(l, token, head)[d] == l.query[i] == QueryCell(l, token, head, d)
  {
    RowInside(token, l.tokens, head, l.heads, l.dim);
    FlatCellIs(l.query, l.tokens, l.heads, l.dim, token, head, d);
  }

  /** Cached rows of kv head `kv` start at (kv * capacity + pos) * dim. */
  lemma CachedRowAt(l: Launch, key: bool, kv: nat, pos: nat, d: nat)
    requires l.Valid() && kv < l.kvHeads && pos < l.capacity && d < l.dim
    ensures var i := (kv * l.capacity + pos) * l.dim + d;
      0 <= i < |l.keyCache| && CachedRow(l, key, kv, pos)[d] == if key then l.keyCache[i] else l.valueCache[i]
  {
    RowInside(kv, l.kvHeads, pos, l.capacity, l.dim);
    FlatCellIs(l.keyCache, l.kvHeads, l.capacity, l.dim, kv, pos, d);
  }

  lemma QueryCells(l: Launch, token: nat, head: nat, d: nat)
    requires l.Valid() && token < l.tokens && head < l.heads && d < l.dim
    ensures QueryRow(l, token, head)[d] == QueryCell(l, token, head, d)
  {
    hide *;
    QueryRowAt(l, token, head, d);
  }

  lemma CachedCells(l: Launch, head: nat, pos: nat, d: nat)
    requires l.Valid() && head < l.heads && pos < l.capacity && d < l.dim
    ensures KeyRow(l, KvHead(l, head), pos)[d] == KeyCell(l, head, pos, d)
    ensures ValueRow(l, KvHead(l, head), pos)[d] == ValueCell(l, head, pos, d)
  {
    var kv := KvHead(l, head);
    CachedRowAt(l, true, kv, pos, d);
    CachedRowAt(l, false, kv, pos, d);
    FlatCellIs(l.keyCache, l.kvHeads, l.capacity, l.dim, kv, pos, d);
    FlatCellIs(l.valueCache, l.kvHeads, l.capacity, l.dim, kv, pos, d);
    hide FlatCell;
  }

  // ----- attention, position by position -----

  /** query . key over the first `n` coordinates. */
  function Match(l: Launch, token: nat, head: nat, pos: nat, n: nat): real
    requires l.Valid() && token < l.tokens && head < l.heads && pos < l.capacity && n <= l.dim
  {
    if n == 0 then 0.0
    else Match(l, token, head, pos, n - 1) + QueryCell(l, token, head, n - 1) * KeyCell(l, head, pos, n - 1)
  }

  function FlatScore(l: Launch, token: nat, head: nat, pos: nat): real
    requires l.Valid() && token < l.tokens && head < l.heads && pos < l.capacity
  {
    Match(l, token, head, pos, l.dim) * l.scale
  }

  /** The weights of positions [lo, hi) relative to `m`. */
  function Weights(exp: real -> real, l: Launch, token: nat, head: nat, m: real, lo: nat, hi: nat): real
    requires l.Valid() && token < l.tokens && head < l.heads && lo <= hi <= l.capacity
  {
    if lo == hi then 0.0
    else Weights(exp, l, token, head, m, lo, hi - 1) + exp(FlatScore(l, token, head, hi - 1) - m)
  }

  /** Coordinate `d` of the weighted values. */
  function WeightedValues(exp: real -> real, l: Launch, token: nat, head: nat, m: real, lo: nat, hi: nat, d: nat): real
    requires l.Valid() && token < l.tokens && head < l.heads && lo <= hi <= l.capacity && d < l.dim
  {
    if lo == hi then 0.0
    else
      WeightedValues(exp, l, token, head, m, lo, hi - 1, d)
      + exp(FlatScore(l, token, head, hi - 1) - m) * ValueCell(l, head, hi - 1, d)
  }

  // ----- it is what the kernels keep -----

  lemma MatchNext(l: Launch, token: nat, head: nat, pos: nat, n: nat, q: real, k: real)
    requires l.Valid() && token < l.tokens && head < l.heads && pos < l.capacity && 0 < n <= l.dim
    requires q == QueryCell(l, token, head, n - 1) && k == KeyCell(l, head, pos, n - 1)
    ensures Match(l, token, head, pos, n) == Match(l, token, head, pos, n - 1) + RealTerm(q, k)
  {
    hide QueryCell, KeyCell;
  }

  lemma NoMatch(l: Launch, token: nat, head: nat, pos: nat)
    requires l.Valid() && token < l.tokens && head < l.heads && pos < l.capacity
    ensures Match(l, token, head, pos, 0) == 0.0
  {}

  lemma {:induction false} MatchIsDot(l: Launch, token: nat, head: nat, pos: nat, n: nat)
    requires l.Valid() && token < l.tokens && head < l.heads && pos < l.capacity && n <= l.dim
    ensures Dot(QueryRow(l, token, head), KeyRow(l, KvHead(l, head), pos), n) == Match(l, token, head, pos, n)
  {
    hide *;
    var q, k := QueryRow(l, token, head), KeyRow(l, KvHead(l, head), pos);
    if n == 0 {
      DotEmpty(q, k);
      NoMatch(l, token, head, pos);
    } else {
      MatchIsDot(l, token, head, pos, n - 1);
      QueryCells(l, token, head, n - 1);
      CachedCells(l, head, pos, n - 1);
      MatchNext(l, token, head, pos, n, q[n - 1], k[n - 1]);
      DotNext(q, k, n, q[n - 1], k[n - 1]);
    }
  }

  /** The score the kernels compute is the flat one. */
  lemma ScoreIsFlat(l: Launch, token: nat, head: nat, pos: nat)
    requires l.Valid() && token < l.tokens && head < l.heads && pos < l.capacity
    ensures Score(l, token, head, pos) == FlatScore(l, token, head, pos)
  {
    hide QueryRow, KeyRow, KvHead, Dot, Match;
    MatchIsDot(l, token, head, pos, l.dim);
  }

  lemma {:induction false} WeightsAreSum(exp: real -> real, l: Launch, token: nat, head: nat, n: nat, m: real, lo: nat,
                                         hi: nat)
    requires l.Valid() && token < l.tokens && head < l.heads && lo <= hi <= n <= l.capacity
    ensures SumExp(exp, Scores(l, token, head, n), m, lo, hi) == Weights(exp, l, token, head, m, lo, hi)
  {
    hide Score, FlatScore;
    if lo < hi {
      WeightsAreSum(exp, l, token, head, n, m, lo, hi - 1);
      ScoreIsFlat(l, token, head, hi - 1);
    }
  }

  lemma AccNext(exp: real -> real, s: seq<real>, v: seq<Vec>, size: nat, m: real, lo: nat, hi: nat, d: nat, w: real,
                x: real)
    requires lo < hi <= |s| == |v| && Sized(v, size) && d < size && w == exp(s[hi - 1] - m) && x == v[hi - 1][d]
    ensures AccExp(exp, s, v, size, m, lo, hi)[d] == AccExp(exp, s, v, size, m, lo, hi - 1)[d] + RealTerm(w, x)
  {
    hide Axpy;
    AxpyAt(w, v[hi - 1], AccExp(exp, s, v, size, m, lo, hi - 1), d);
  }

  lemma WeightedNext(exp: real -> real, l: Launch, token: nat, head: nat, m: real, lo: nat, hi: nat, d: nat, w: real,
                     x: real)
    requires l.Valid() && token < l.tokens && head < l.heads && lo < hi <= l.capacity && d < l.dim
    requires w == exp(FlatScore(l, token, head, hi - 1) - m) && x == ValueCell(l, head, hi - 1, d)
    ensures WeightedValues(exp, l, token, head, m, lo, hi, d)
         == WeightedValues(exp, l, token, head, m, lo, hi - 1, d) + RealTerm(w, x)
  {
    hide FlatScore, ValueCell;
  }

  lemma NothingWeighted(exp: real -> real, l: Launch, token: nat, head: nat, n: nat, m: real, lo: nat, d: nat)
    requires l.Valid() && token < l.tokens && head < l.heads && lo <= n <= l.capacity && d < l.dim
    ensures AccExp(exp, Scores(l, token, head, n), Values(l, head, n), l.dim, m, lo, lo)[d] == 0.0
    ensures WeightedValues(exp, l, token, head, m, lo, lo, d) == 0.0
  {}

  lemma PositionCells(l: Launch, token: nat, head: nat, n: nat, pos: nat, d: nat)
    requires l.Valid() && token < l.tokens && head < l.heads && pos < n <= l.capacity && d < l.dim
    ensures Scores(l, token, head, n)[pos] == FlatScore(l, token, head, pos)
    ensures Values(l, head, n)[pos][d] == ValueCell(l, head, pos, d)
  {
    hide Score, FlatScore, ValueRow, KvHead, ValueCell;
    ScoreIsFlat(l, token, head, pos);
    CachedCells(l, head, pos, d);
  }

  lemma {:induction false} WeightedAreAcc(exp: real -> real, l: Launch, token: nat, head: nat, n: nat, m: real, lo: nat,
                                          hi: nat, d: nat)
    requires l.Valid() && token < l.tokens && head < l.heads && lo <= hi <= n <= l.capacity && d < l.dim
    ensures AccExp(exp, Scores(l, token, head, n), Values(l, head, n), l.dim, m, lo, hi)[d]
         == WeightedValues(exp, l, token, head, m, lo, hi, d)
  {
    hide *;
    var s, v := Scores(l, token, head, n), Values(l, head, n);
    if lo == hi {
      NothingWeighted(exp, l, token, head, n, m, lo, d);
    } else {
      WeightedAreAcc(exp, l, token, head, n, m, lo, hi - 1, d);
      PositionCells(l, token, head, n, hi - 1, d);
      var w, x := exp(s[hi - 1] - m), v[hi - 1][d];
      AccNext(exp, s, v, l.dim, m, lo, hi, d, w, x);
      WeightedNext(exp, l, token, head, m, lo, hi, d, w, x);
    }
  }

  /** The exact state of a range, cell by cell: the maximum is attained, and sum and accumulator are
      taken relative to it. This is what every stage-1 kernel leaves in a slot. */
  lemma ExactIsFlat(exp: real -> real, l: Launch, token: nat, head: nat, lo: nat, hi: nat)
    requires l.Valid() && token < l.tokens && head < l.heads && lo < hi <= l.capacity
    ensures PartialComputed(exp, l, Exact(exp, l, token, head, lo, hi), token, head, lo, hi)
  {
    hide Score, FlatScore, ValueRow, KvHead, MaxScore, SumExp, AccExp, Weights, WeightedValues;
    var s, v := Scores(l, token, head, hi), Values(l, head, hi);
    MaxScoreIsMax(s, lo, hi);
    SummaryIs(exp, s, v, l.dim, lo, hi);
    var m := MaxScore(s, lo, hi).value;
    forall pos | lo <= pos < hi ensures s[pos] == FlatScore(l, token, head, pos) { ScoreIsFlat(l, token, head, pos); }
    WeightsAreSum(exp, l, token, head, hi, m, lo, hi);
    forall d | 0 <= d < l.dim
      ensures AccExp(exp, s, v, l.dim, m, lo, hi)[d] == WeightedValues(exp, l, token, head, m, lo, hi, d)
    {
      WeightedAreAcc(exp, l, token, head, hi, m, lo, hi, d);
    }
    var i :| lo <= i < hi && s[i] == m;
    assert FlatScore(l, token, head, i) == m;
  }

  /** A partial state, cell by cell. */
  ghost predicate PartialComputed(exp: real -> real, l: Launch, p: Partial, token: nat, head: nat, lo: nat, hi: nat)
    requires l.Valid() && token < l.tokens && head < l.heads && lo < hi <= l.capacity
  {
    && p.max.Fin? && |p.acc| == l.dim
    && (forall pos :: lo <= pos < hi ==> FlatScore(l, token, head, pos) <= p.max.value)
    && (exists pos :: lo <= pos < hi && FlatScore(l, token, head, pos) == p.max.value)
    && p.sum == Weights(exp, l, token, head, p.max.value, lo, hi)
    && forall d :: 0 <= d < l.dim ==> p.acc[d] == WeightedValues(exp, l, token, head, p.max.value, lo, hi, d)
  }

  /** The state of positions [start, start + chunk), as far as the token sees them. */
  ghost predicate PieceComputed(exp: real -> real, l: Launch, p: Partial, token: nat, head: nat, start: int, chunk: nat)
    requires l.Valid() && token < l.tokens && head < l.heads && l.base + token + 1 <= l.capacity
  {
    var length := l.base + token + 1;
    var end := if start + chunk < length then start + chunk else length;
    && 0 <= start
    && if start < end then PartialComputed(exp, l, p, token, head, start, end)
       else p == Partial(NegInf, 0.0, Zero(l.dim))
  }

  /** What a stage-1 workgroup stores for split `split` of a prefix cut into pieces of `chunk`. */
  lemma ItemIsFlat(exp: real -> real, l: Launch, chunk: nat, split: nat, token: nat, head: nat)
    requires l.Valid() && token < l.tokens && head < l.heads && l.base + token + 1 <= l.capacity
    ensures PieceComputed(exp, l, ItemState(exp, l, chunk, split, token, head), token, head, split * chunk, chunk)
  {
    hide Exact, ItemState, PartialComputed;
    var length, start := l.base + token + 1, split * chunk;
    var end := if start + chunk < length then start + chunk else length;
    ItemRange(exp, l, chunk, split, token, head);
    if start < end {
      ExactIsFlat(exp, l, token, head, start, end);
    } else if start < length {
      ExactNone(exp, l, token, head, start);
    }
  }

  /** Slots are [split][token][head], their accumulators one row of `dim` cells each. */
  lemma SlotAt(w: Workspace, l: Launch, split: nat, token: nat, head: nat)
    requires Fits(w, l) && split < l.splits && token < l.tokens && head < l.heads
    ensures var i := (split * l.tokens + token) * l.heads + head;
      && 0 <= i < w.max.Length && i < w.sum.Length && 0 <= i * l.dim && i * l.dim + l.dim <= w.acc.Length
      && SlotOf(w, l, split, token, head)
         == Partial(w.max[i], w.sum[i], w.acc[i * l.dim..i * l.dim + l.dim])
  {
    var slot := SlotIndex(l, split, token, head);
    SlotInside(l, split, token, head);
    AccRow(SlotCount(l), slot, l.dim);
    assert slot == (split * l.tokens + token) * l.heads + head && At(slot, 0, l.dim) == slot * l.dim;
    hide SlotIndex, At, SlotCount;
  }

  /** The slot at its address holds the state of positions [split * chunk, (split + 1) * chunk), as
      far as the token sees them. */
  ghost predicate SlotComputed(exp: real -> real, w: Workspace, l: Launch, chunk: nat, split: nat, token: nat,
                               head: nat)
    requires l.Valid() && Fits(w, l) && split < l.splits && token < l.tokens && head < l.heads
    requires l.base + token + 1 <= l.capacity
    reads w.max, w.sum, w.acc
  {
    var i := (split * l.tokens + token) * l.heads + head;
    var r := i * l.dim;
    && 0 <= i < w.max.Length && i < w.sum.Length && 0 <= r && r + l.dim <= w.acc.Length
    && PieceComputed(exp, l, Partial(w.max[i], w.sum[i], w.acc[r..r + l.dim]), token, head, split * chunk, chunk)
  }

  /** What the contracts of the stage-1 kernels promise, at the source's addresses. */
  lemma DoneSlotIsComputed(exp: real -> real, w: Workspace, l: Launch, chunk: nat, split: nat, token: nat, head: nat)
    requires l.Valid() && Fits(w, l) && split < l.splits && token < l.tokens && head < l.heads
    requires l.base + token + 1 <= l.capacity && ItemDone(exp, w, l, chunk, split, token, head)
    ensures SlotComputed(exp, w, l, chunk, split, token, head)
  {
    ItemIsFlat(exp, l, chunk, split, token, head);
    SlotAt(w, l, split, token, head);
    hide ItemState, PieceComputed;
  }

  lemma WeightsPositive(exp: real -> real, l: Launch, token: nat, head: nat, n: nat)
    requires Exponential(exp) && l.Valid() && token < l.tokens && head < l.heads && 0 < n <= l.capacity
    ensures Weights(exp, l, token, head, 0.0, 0, n) > 0.0
  {
    hide *;
    WeightsAreSum(exp, l, token, head, n, 0.0, 0, n);
    SumPositive(exp, Scores(l, token, head, n), 0.0, 0, n);
  }

  /** sum exp(score) value / sum exp(score) over the positions up to the token's own. */
  function Average(exp: real -> real, l: Launch, token: nat, head: nat, d: nat): real
    requires Exponential(exp) && l.Valid() && token < l.tokens && head < l.heads && d < l.dim
    requires l.base + token + 1 <= l.capacity
  {
    WeightsPositive(exp, l, token, head, l.base + token + 1);
    WeightedValues(exp, l, token, head, 0.0, 0, l.base + token + 1, d)
    / Weights(exp, l, token, head, 0.0, 0, l.base + token + 1)
  }

  lemma Quotient(a: real, s: real)
    requires s != 0.0
    ensures a * (1.0 / s) == a / s
  {}

  lemma AverageIs(exp: real -> real, l: Launch, token: nat, head: nat, d: nat, a: real, s: real)
    requires Exponential(exp) && l.Valid() && token < l.tokens && head < l.heads && d < l.dim
    requires l.base + token + 1 <= l.capacity
    requires a == WeightedValues(exp, l, token, head, 0.0, 0, l.base + token + 1, d)
    requires s == Weights(exp, l, token, head, 0.0, 0, l.base + token + 1) && s > 0.0
    ensures Average(exp, l, token, head, d) == a / s
  {
    hide Exponential, Weights, WeightedValues;
  }

  lemma MeanIs(exp: real -> real, s: seq<real>, v: seq<Vec>, size: nat, n: nat, d: nat, a: real, sum: real)
    requires Exponential(exp) && 0 < n <= |s| == |v| && Sized(v, size) && d < size
    requires sum == SumExp(exp, s, 0.0, 0, n) && sum > 0.0 && a == AccExp(exp, s, v, size, 0.0, 0, n)[d]
    ensures Mean(exp, s, v, size, n)[d] == a / sum
  {
    hide Exponential, Scale, SumExp, AccExp, Sized;
    ScaleAt(1.0 / sum, AccExp(exp, s, v, size, 0.0, 0, n), d);
    Quotient(a, sum);
  }

  /** The attention the kernels are proved to compute is that average. */
  lemma AttendIsFlat(exp: real -> real, l: Launch, token: nat, head: nat, d: nat)
    requires Exponential(exp) && l.Valid() && token < l.tokens && head < l.heads && d < l.dim
    requires l.base + token + 1 <= l.capacity
    ensures Attend(exp, l, token, head)[d] == Average(exp, l, token, head, d)
  {
    hide Exponential, Score, ValueRow, KvHead, SumExp, AccExp, Weights, WeightedValues, Mean, Average;
    var n := l.base + token + 1;
    var s, v := Scores(l, token, head, n), Values(l, head, n);
    WeightsAreSum(exp, l, token, head, n, 0.0, 0, n);
    WeightedAreAcc(exp, l, token, head, n, 0.0, 0, n, d);
    SumPositive(exp, s, 0.0, 0, n);
    var a, sum := AccExp(exp, s, v, l.dim, 0.0, 0, n)[d], SumExp(exp, s, 0.0, 0, n);
    MeanIs(exp, s, v, l.dim, n, d, a, sum);
    AverageIs(exp, l, token, head, d, a, sum);
  }

  /** The token fits the cache and every cell of its output row is the gated average. */
  ghost predicate RowComputed(exp: real -> real, l: Launch, gate: Option<Vec>, output: seq<real>, token: nat, head: nat)
    requires Exponential(exp) && l.Valid() && token < l.tokens && head < l.heads
  {
    l.base + token + 1 <= l.capacity
    && forall d :: 0 <= d < l.dim ==>
      CellStored(exp, l, gate, output, token, head, d, Average(exp, l, token, head, d))
  }

  lemma DoneIsComputed(exp: real -> real, l: Launch, gate: Option<Vec>, output: seq<real>, token: nat, head: nat)
    requires Exponential(exp) && l.Valid() && GateFits(gate, l) && token < l.tokens && head < l.heads
    requires l.base + token + 1 <= l.capacity && |output| == |l.query|
    requires RowDone(exp, l, gate, output, token, head)
    ensures RowComputed(exp, l, gate, output, token, head)
  {
    hide Exponential, GateFits, Average, Attend, OutputRow, CellStored, Gated;
    var x := Attend(exp, l, token, head);
    OutputInside(l, token, head);
    forall d | 0 <= d < l.dim
      ensures CellStored(exp, l, gate, output, token, head, d, Average(exp, l, token, head, d))
    {
      StoredIs(exp, l, gate, output, token, head, x, d);
      AttendIsFlat(exp, l, token, head, d);
    }
  }

  // ----- locality and causality -----

  /** Same shape, and equal cells wherever the token and head may look: in their own query row, and
      in the kv head's rows up to the token's own position. */
  ghost predicate LooksAlike(l: Launch, l': Launch, token: nat, head: nat)
    requires l.Valid() && l'.Valid() && token < l.tokens && head < l.heads
  {
    GroupBound(l.heads, l.kvHeads, head);
    var row, first := (token * l.heads + head) * l.dim, head / (l.heads / l.kvHeads) * l.capacity;
    && l' == l.(query := l'.query, keyCache := l'.keyCache, valueCache := l'.valueCache)
    && (forall i :: 0 <= i < |l.query| && row <= i < row + l.dim ==> l'.query[i] == l.query[i])
    && (forall i :: 0 <= i < |l.keyCache| && first * l.dim <= i < (first + (l.base + token + 1)) * l.dim ==>
          l'.keyCache[i] == l.keyCache[i] && l'.valueCache[i] == l.valueCache[i])
  }

  lemma WithinRows(first: nat, pos: nat, n: nat, d: nat, dim: nat)
    requires pos < n && d < dim
    ensures first * dim <= (first + pos) * dim + d < (first + n) * dim
  {
    ProductOrder(first, first + pos, dim);
    ProductOrder(first + pos + 1, first + n, dim);
    assert (first + pos + 1) * dim == (first + pos) * dim + dim;
  }

  lemma SameQueryRow(l: Launch, l': Launch, token: nat, head: nat)
    requires l.Valid() && l'.Valid() && token < l.tokens && head < l.heads && LooksAlike(l, l', token, head)
    ensures QueryRow(l', token, head) == QueryRow(l, token, head)
  {
    hide QueryRow, QueryCell;
    forall d | 0 <= d < l.dim ensures QueryRow(l', token, head)[d] == QueryRow(l, token, head)[d] {
      QueryRowAt(l, token, head, d);
      QueryRowAt(l', token, head, d);
    }
  }

  lemma SameCachedRow(l: Launch, l': Launch, key: bool, token: nat, head: nat, pos: nat)
    requires l.Valid() && l'.Valid() && token < l.tokens && head < l.heads && LooksAlike(l, l', token, head)
    requires pos <= l.base + token < l.capacity
    ensures KvHead(l', head) == KvHead(l, head)
    ensures CachedRow(l', key, KvHead(l, head), pos) == CachedRow(l, key, KvHead(l, head), pos)
  {
    hide CachedRow;
    var kv := KvHead(l, head);
    forall d | 0 <= d < l.dim ensures CachedRow(l', key, kv, pos)[d] == CachedRow(l, key, kv, pos)[d] {
      WithinRows(kv * l.capacity, pos, l.base + token + 1, d, l.dim);
      CachedRowAt(l, key, kv, pos, d);
      CachedRowAt(l', key, kv, pos, d);
    }
  }

  /** Attention of a token and head depends on those cells alone: not on another token's or head's
      query, not on another kv head, and not on any later position. */
  lemma AttendIsLocal(exp: real -> real, l: Launch, l': Launch, token: nat, head: nat)
    requires Exponential(exp) && l.Valid() && l'.Valid() && token < l.tokens && head < l.heads
    requires l.base + token + 1 <= l.capacity && LooksAlike(l, l', token, head)
    ensures l'.tokens == l.tokens && l'.heads == l.heads && l'.base == l.base && l'.capacity == l.capacity
    ensures Attend(exp, l', token, head) == Attend(exp, l, token, head)
  {
    hide Exponential, QueryRow, KeyRow, ValueRow, KvHead, Dot, Mean;
    SameQueryRow(l, l', token, head);
    var n := l.base + token + 1;
    forall pos | 0 <= pos < n
      ensures Score(l', token, head, pos) == Score(l, token, head, pos)
      ensures ValueRow(l', KvHead(l', head), pos) == ValueRow(l, KvHead(l, head), pos)
    {
      SameCachedRow(l, l', true, token, head, pos);
      SameCachedRow(l, l', false, token, head, pos);
    }
    assert Scores(l', token, head, n) == Scores(l, token, head, n);
    assert Values(l', head, n) == Values(l, head, n);
  }

  /** Overwriting a query cell of any other token or head changes nothing. */
  lemma OtherQueryCell(exp: real -> real, l: Launch, token: nat, head: nat, i: nat, x: real)
    requires Exponential(exp) && l.Valid() && token < l.tokens && head < l.heads && l.base + token + 1 <= l.capacity
    requires i < |l.query| && (i < (token * l.heads + head) * l.dim || (token * l.heads + head) * l.dim + l.dim <= i)
    ensures l.(query := l.query[i := x]).Valid()
    ensures Attend(exp, l.(query := l.query[i := x]), token, head) == Attend(exp, l, token, head)
  {
    hide Exponential, Attend;
    AttendIsLocal(exp, l, l.(query := l.query[i := x]), token, head);
  }
}
