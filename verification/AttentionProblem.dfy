/** The attention launch: flat buffers, grouped key/value heads, splits and the workspace. */
module AttentionProblem {
  import opened LinearAlgebra
  import opened Layout
  import opened ExpLog
  import opened Softmax
  import opened OnlineSoftmax

  /** The read-only arguments of the kernels. */
  datatype Launch = Launch(
    tokens: nat, base: nat, capacity: nat, heads: nat, kvHeads: nat, dim: nat, splits: nat, scale: real,
    query: seq<real>, keyCache: seq<real>, valueCache: seq<real>)
  {
    ghost predicate Valid() {
      && 0 < heads && 0 < kvHeads && heads % kvHeads == 0 && 0 < splits
      && |query| == tokens * heads * dim
      && |keyCache| == |valueCache| == kvHeads * capacity * dim
    }
  }

  /** The key/value head that query head `head` shares. */
  function KvHead(l: Launch, head: nat): (kv: nat)
    requires l.Valid() && head < l.heads
    ensures kv < l.kvHeads
  {
    GroupBound(l.heads, l.kvHeads, head);
    head / (l.heads / l.kvHeads)
  }

  lemma GroupBound(heads: nat, kvHeads: nat, head: nat)
    requires 0 < heads && 0 < kvHeads && heads % kvHeads == 0 && head < heads
    ensures 0 < heads / kvHeads && head / (heads / kvHeads) < kvHeads
  {
    var g := heads / kvHeads;
    assert heads == g * kvHeads;
    assert g != 0 by { ProductZero(kvHeads, g); }
    var kv := head / g;
    ProductOrder(kvHeads, kv, g);
  }

  /** Causal length: a token sees every cached position up to its own. */
  function Length(l: Launch, token: nat): nat { l.base + token + 1 }

  lemma RowInside(a: nat, rows: nat, b: nat, columns: nat, width: nat)
    requires a < rows && b < columns
    ensures At(At(a, b, columns), 0, width) + width <= rows * columns * width
  {
    AtBound(a, rows, b, columns);
    ProductOrder(At(a, b, columns) + 1, rows * columns, width);
    assert (At(a, b, columns) + 1) * width == At(a, b, columns) * width + width;
  }

  function QueryRow(l: Launch, token: nat, head: nat): (q: Vec)
    requires l.Valid() && token < l.tokens && head < l.heads
    ensures |q| == l.dim
  {
    RowInside(token, l.tokens, head, l.heads, l.dim);
    var start := At(At(token, head, l.heads), 0, l.dim);
    l.query[start..start + l.dim]
  }

  function KeyRow(l: Launch, kv: nat, pos: nat): (k: Vec)
    requires l.Valid() && kv < l.kvHeads && pos < l.capacity
    ensures |k| == l.dim
  {
    RowInside(kv, l.kvHeads, pos, l.capacity, l.dim);
    var start := At(At(kv, pos, l.capacity), 0, l.dim);
    l.keyCache[start..start + l.dim]
  }

  function ValueRow(l: Launch, kv: nat, pos: nat): (v: Vec)
    requires l.Valid() && kv < l.kvHeads && pos < l.capacity
    ensures |v| == l.dim
  {
    RowInside(kv, l.kvHeads, pos, l.capacity, l.dim);
    var start := At(At(kv, pos, l.capacity), 0, l.dim);
    l.valueCache[start..start + l.dim]
  }

  /** A row of the key or of the value cache. */
  function CachedRow(l: Launch, key: bool, kv: nat, pos: nat): (row: Vec)
    requires l.Valid() && kv < l.kvHeads && pos < l.capacity
    ensures |row| == l.dim
  {
    if key then KeyRow(l, kv, pos) else ValueRow(l, kv, pos)
  }

  function Score(l: Launch, token: nat, head: nat, pos: nat): real
    requires l.Valid() && token < l.tokens && head < l.heads && pos < l.capacity
  {
    Dot(QueryRow(l, token, head), KeyRow(l, KvHead(l, head), pos), l.dim) * l.scale
  }

  /** The scores of the first `n` cached positions. */
  function Scores(l: Launch, token: nat, head: nat, n: nat): (s: seq<real>)
    requires l.Valid() && token < l.tokens && head < l.heads && n <= l.capacity
    ensures |s| == n
    ensures forall pos :: 0 <= pos < n ==> s[pos] == Score(l, token, head, pos)
  {
    seq(n, pos requires 0 <= pos < n => Score(l, token, head, pos))
  }

  function Values(l: Launch, head: nat, n: nat): (v: seq<Vec>)
    requires l.Valid() && head < l.heads && n <= l.capacity
    ensures |v| == n && Sized(v, l.dim)
    ensures forall pos :: 0 <= pos < n ==> v[pos] == ValueRow(l, KvHead(l, head), pos)
  {
    seq(n, pos requires 0 <= pos < n => ValueRow(l, KvHead(l, head), pos))
  }

  /** The exact state after positions [lo, hi) for one token and head. */
  function Exact(exp: real -> real, l: Launch, token: nat, head: nat, lo: nat, hi: nat): (p: Partial)
    requires l.Valid() && token < l.tokens && head < l.heads && lo <= hi <= l.capacity
    ensures |p.acc| == l.dim
  {
    Summary(exp, Scores(l, token, head, hi), Values(l, head, hi), l.dim, lo, hi)
  }

  /** A summary depends only on the positions it covers. */
  lemma {:induction false} SummaryPrefix(exp: real -> real, s: seq<real>, v: seq<Vec>, s': seq<real>, v': seq<Vec>,
                                         size: nat, m: real, lo: nat, hi: nat)
    requires lo <= hi <= |s| == |v| && hi <= |s'| == |v'| && Sized(v, size) && Sized(v', size)
    requires forall i :: lo <= i < hi ==> s[i] == s'[i] && v[i] == v'[i]
    ensures MaxScore(s, lo, hi) == MaxScore(s', lo, hi)
    ensures SumExp(exp, s, m, lo, hi) == SumExp(exp, s', m, lo, hi)
    ensures AccExp(exp, s, v, size, m, lo, hi) == AccExp(exp, s', v', size, m, lo, hi)
  {
    if lo < hi { SummaryPrefix(exp, s, v, s', v', size, m, lo, hi - 1); }
  }

  lemma ExactFrom(exp: real -> real, l: Launch, token: nat, head: nat, lo: nat, hi: nat, n: nat)
    requires l.Valid() && token < l.tokens && head < l.heads && lo <= hi <= n <= l.capacity
    ensures Exact(exp, l, token, head, lo, hi)
         == Summary(exp, Scores(l, token, head, n), Values(l, head, n), l.dim, lo, hi)
  {
    hide Score, ValueRow, AccExp, SumExp;
    var m := MaxScore(Scores(l, token, head, hi), lo, hi);
    SummaryPrefix(exp, Scores(l, token, head, hi), Values(l, head, hi), Scores(l, token, head, n), Values(l, head, n),
                  l.dim, if m.Fin? then m.value else 0.0, lo, hi);
  }

  /** One position more. */
  lemma ExactNext(exp: real -> real, l: Launch, token: nat, head: nat, lo: nat, pos: nat)
    requires Exponential(exp) && l.Valid() && token < l.tokens && head < l.heads && lo <= pos < l.capacity
    ensures Push(exp, Exact(exp, l, token, head, lo, pos), Score(l, token, head, pos),
                 ValueRow(l, KvHead(l, head), pos))
         == Exact(exp, l, token, head, lo, pos + 1)
  {
    hide Exponential, Score, ValueRow, Summary, Push;
    ExactFrom(exp, l, token, head, lo, pos, pos + 1);
    PushSummary(exp, Scores(l, token, head, pos + 1), Values(l, head, pos + 1), l.dim, lo, pos);
  }

  lemma ExactNone(exp: real -> real, l: Launch, token: nat, head: nat, lo: nat)
    requires l.Valid() && token < l.tokens && head < l.heads && lo <= l.capacity
    ensures Exact(exp, l, token, head, lo, lo) == Empty(l.dim)
  {}

  // ----- splits -----

  /** ceil(length / splits) */
  function ChunkSize(length: nat, splits: nat): nat
    requires 0 < splits
  {
    (length + splits - 1) / splits
  }

  /** The boundary before split `split`. */
  function Cut(chunk: nat, split: nat, length: nat): (cut: nat)
    ensures cut <= length
  {
    if split * chunk < length then split * chunk else length
  }

  lemma CutMonotone(chunk: nat, split: nat, split': nat, length: nat)
    requires split <= split'
    ensures Cut(chunk, split, length) <= Cut(chunk, split', length)
  {
    ProductOrder(split, split', chunk);
  }

  /** The splits cover the whole length. */
  lemma ChunkCovers(length: nat, splits: nat)
    requires 0 < splits
    ensures Cut(ChunkSize(length, splits), splits, length) == length
    ensures Cut(ChunkSize(length, splits), 0, length) == 0
  {
    var n := length + splits - 1;
    var c := n / splits;
    assert n == c * splits + n % splits;
  }

  /** ... with the smallest chunk that can: one position less in every chunk does not reach. */
  lemma ChunkIsLeast(length: nat, splits: nat, chunk: nat)
    requires 0 < splits
    ensures length <= splits * chunk <==> ChunkSize(length, splits) <= chunk
  {
    var n := length + splits - 1;
    var c := n / splits;
    assert n == c * splits + n % splits;
    ProductOrder(c, chunk, splits);
    ProductOrder(chunk + 1, c, splits);
    assert (chunk + 1) * splits == chunk * splits + splits;
    assert splits * chunk == chunk * splits;
  }

  /** What a kernel computes for its split: the code's k_start and k_end. */
  lemma SplitBounds(chunk: nat, split: nat, length: nat)
    ensures var start := split * chunk;
      var end := if start + chunk < length then start + chunk else length;
      (start < length ==> start == Cut(chunk, split, length) && end == Cut(chunk, split + 1, length) && start <= end)
    ensures split * chunk >= length ==> Cut(chunk, split, length) == Cut(chunk, split + 1, length) == length
  {
    Distributes(split, chunk);
  }

  lemma Distributes(split: nat, chunk: nat)
    ensures (split + 1) * chunk == split * chunk + chunk
  {}

  /** Distinct splits never share a position. */
  lemma SplitsDisjoint(chunk: nat, split: nat, split': nat, length: nat, pos: nat)
    requires Cut(chunk, split, length) <= pos < Cut(chunk, split + 1, length)
    requires Cut(chunk, split', length) <= pos < Cut(chunk, split' + 1, length)
    ensures split == split'
  {
    if split < split' { CutMonotone(chunk, split + 1, split', length); }
    if split' < split { CutMonotone(chunk, split' + 1, split, length); }
  }

  // ----- the workspace -----

  /** The three partial buffers. */
  datatype Workspace = Workspace(max: array<Bound>, sum: array<real>, acc: array<real>)

  function SlotIndex(l: Launch, split: nat, token: nat, head: nat): nat {
    At(At(split, token, l.tokens), head, l.heads)
  }

  function SlotCount(l: Launch): nat { l.splits * l.tokens * l.heads }

  ghost predicate Fits(w: Workspace, l: Launch) {
    && w.max.Length == w.sum.Length == SlotCount(l)
    && w.acc.Length == SlotCount(l) * l.dim
    && w.sum != w.acc
  }

  lemma SlotInside(l: Launch, split: nat, token: nat, head: nat)
    requires split < l.splits && token < l.tokens && head < l.heads
    ensures SlotIndex(l, split, token, head) < SlotCount(l)
  {
    AtBound(split, l.splits, token, l.tokens);
    AtBound(At(split, token, l.tokens), l.splits * l.tokens, head, l.heads);
  }

  /** No two (split, token, head) triples share a slot. */
  lemma SlotInjective(l: Launch, split: nat, token: nat, head: nat, split': nat, token': nat, head': nat)
    requires token < l.tokens && token' < l.tokens && head < l.heads && head' < l.heads
    ensures SlotIndex(l, split, token, head) == SlotIndex(l, split', token', head')
      <==> split == split' && token == token' && head == head'
  {
    AtInjective(At(split, token, l.tokens), head, At(split', token', l.tokens), head', l.heads);
    AtInjective(split, token, split', token', l.tokens);
  }

  lemma AccRow(slots: nat, slot: nat, dim: nat)
    requires slot < slots
    ensures At(slot, 0, dim) + dim <= slots * dim
  {
    ProductOrder(slot + 1, slots, dim);
    assert (slot + 1) * dim == slot * dim + dim;
  }

  /** The contents of one slot. */
  function Slot(w: Workspace, l: Launch, slot: nat): (p: Partial)
    requires Fits(w, l) && slot < SlotCount(l)
    reads w.max, w.sum, w.acc
    ensures |p.acc| == l.dim
  {
    AccRow(SlotCount(l), slot, l.dim);
    Partial(w.max[slot], w.sum[slot], w.acc[At(slot, 0, l.dim)..At(slot, 0, l.dim) + l.dim])
  }

  /** The slot of one split, token and head. */
  function SlotOf(w: Workspace, l: Launch, split: nat, token: nat, head: nat): (p: Partial)
    requires Fits(w, l) && split < l.splits && token < l.tokens && head < l.heads
    reads w.max, w.sum, w.acc
    ensures |p.acc| == l.dim
  {
    SlotInside(l, split, token, head);
    Slot(w, l, SlotIndex(l, split, token, head))
  }
}
