/** Stage 2: merge the partial results of all splits and write the gated output row. */
module Stage2 {
  import opened Wrappers
  import opened LinearAlgebra
  import opened Layout
  import opened ExpLog
  import opened Softmax
  import opened AttentionProblem
  import opened Attention
  import opened SplitMerge
  import opened Stage1

  /** The slots of one (token, head), in split order. */
  function PartsOf(w: Workspace, l: Launch, token: nat, head: nat): (p: seq<Partial>)
    requires Fits(w, l) && token < l.tokens && head < l.heads
    reads w.max, w.sum, w.acc
    ensures |p| == l.splits && PartsSized(p, l.dim)
  {
    seq(l.splits, s requires 0 <= s < l.splits && Fits(w, l) && token < l.tokens && head < l.heads
                    reads w.max, w.sum, w.acc =>
      SlotOf(w, l, s, token, head))
  }

  /** Stage 2 addresses slots as split * (tokens * heads) + token_head; that is the slot stage 1 wrote. */
  lemma SplitStride(l: Launch, split: nat, token: nat, head: nat)
    ensures At(split, At(token, head, l.heads), l.tokens * l.heads) == SlotIndex(l, split, token, head)
  {
    assert (split * l.tokens + token) * l.heads == split * (l.tokens * l.heads) + token * l.heads;
  }

  lemma PartAt(w: Workspace, l: Launch, token: nat, head: nat, split: nat)
    requires Fits(w, l) && token < l.tokens && head < l.heads && split < l.splits
    ensures var slot := SlotIndex(l, split, token, head); var p := PartsOf(w, l, token, head)[split];
      && slot < SlotCount(l) == w.max.Length == w.sum.Length && p.max == w.max[slot] && p.sum == w.sum[slot]
      && At(slot, 0, l.dim) + l.dim <= w.acc.Length
      && forall d :: 0 <= d < l.dim ==> p.acc[d] == w.acc[At(slot, 0, l.dim) + d]
  {
    SlotInside(l, split, token, head);
    hide SlotIndex, SlotCount;
    AccRow(SlotCount(l), SlotIndex(l, split, token, head), l.dim);
  }

  /** The first pass: the maximum over all splits. */
  method GlobalMax(l: Launch, w: Workspace, token: nat, head: nat, n: nat) returns (m: Bound)
    requires Fits(w, l) && token < l.tokens && head < l.heads && n <= l.splits
    ensures m == MaxOf(PartsOf(w, l, token, head), n)
  {
    hide SlotIndex, SlotCount, PartsOf, Fits;
    m := NegInf;
    var tokenHead := At(token, head, l.heads);
    for s := 0 to n
      invariant m == MaxOf(PartsOf(w, l, token, head), s)
    {
      SplitStride(l, s, token, head);
      PartAt(w, l, token, head, s);
      var slot := At(s, tokenHead, l.tokens * l.heads);
      if w.max[slot].Fin? && Above(w.max[slot].value, m) { m := w.max[slot]; }
    }
  }

  /** The second pass: the denominator at the global maximum. */
  method GlobalSum(exp: real -> real, l: Launch, w: Workspace, token: nat, head: nat, m: Bound) returns (sum: real)
    requires Fits(w, l) && token < l.tokens && head < l.heads
    requires m == MaxOf(PartsOf(w, l, token, head), l.splits)
    ensures sum == WeighedSum(exp, Screened(PartsOf(w, l, token, head), l.dim), Reference(m), l.splits)
  {
    hide SlotIndex, SlotCount, PartsOf, Fits, MaxOf;
    ghost var parts := PartsOf(w, l, token, head);
    var tokenHead := At(token, head, l.heads);
    sum := 0.0;
    for s := 0 to l.splits
      invariant sum == WeighedSum(exp, Screened(parts, l.dim), Reference(m), s)
    {
      SplitStride(l, s, token, head);
      PartAt(w, l, token, head, s);
      var slot := At(s, tokenHead, l.tokens * l.heads);
      var splitMax, splitSum := w.max[slot], w.sum[slot];
      if splitSum > 0.0 && splitMax.Fin? {
        MaxOfCovers(parts, l.splits, s);
        sum := sum + splitSum * Fade(exp, splitMax, m.value);
      }
    }
  }

  lemma {:induction false} MaxOfCovers(parts: seq<Partial>, n: nat, s: nat)
    requires s < n <= |parts| && parts[s].max.Fin?
    ensures MaxOf(parts, n).Fin? && parts[s].max.value <= MaxOf(parts, n).value
  {
    if s < n - 1 { MaxOfCovers(parts, n - 1, s); }
  }

  /** The third pass, for one coordinate. */
  method GlobalAcc(exp: real -> real, l: Launch, w: Workspace, token: nat, head: nat, m: Bound, d: nat)
    returns (acc: real)
    requires Fits(w, l) && token < l.tokens && head < l.heads && d < l.dim
    requires m == MaxOf(PartsOf(w, l, token, head), l.splits)
    ensures acc == WeighedAcc(exp, Screened(PartsOf(w, l, token, head), l.dim), Reference(m), l.dim, l.splits)[d]
  {
    hide SlotIndex, SlotCount, PartsOf, Fits, MaxOf, Fade, Axpy;
    ghost var parts := PartsOf(w, l, token, head);
    ghost var kept := Screened(parts, l.dim);
    var tokenHead := At(token, head, l.heads);
    acc := 0.0;
    for s := 0 to l.splits
      invariant acc == WeighedAcc(exp, kept, Reference(m), l.dim, s)[d]
    {
      SplitStride(l, s, token, head);
      PartAt(w, l, token, head, s);
      AxpyAt(Fade(exp, kept[s].max, Reference(m)), kept[s].acc, WeighedAcc(exp, kept, Reference(m), l.dim, s), d);
      var slot := At(s, tokenHead, l.tokens * l.heads);
      var splitMax, splitSum := w.max[slot], w.sum[slot];
      if splitSum > 0.0 && splitMax.Fin? {
        MaxOfCovers(parts, l.splits, s);
        acc := acc + w.acc[At(slot, 0, l.dim) + d] * Fade(exp, splitMax, m.value);
      }
    }
  }

  /** Every coordinate of the third pass, normalised. */
  method MergedRow(exp: real -> real, l: Launch, w: Workspace, token: nat, head: nat) returns (x: Vec)
    requires Fits(w, l) && token < l.tokens && head < l.heads
    ensures x == LoopMerge(exp, PartsOf(w, l, token, head), l.dim)
  {
    hide PartsOf, Fits, MaxOf, WeighedSum, WeighedAcc, Screened, Scale;
    var m := GlobalMax(l, w, token, head, l.splits);
    var sum := GlobalSum(exp, l, w, token, head, m);
    var inverse := Reciprocal(sum);
    ghost var acc := WeighedAcc(exp, Screened(PartsOf(w, l, token, head), l.dim), Reference(m), l.dim, l.splits);
    x := [];
    for d := 0 to l.dim
      invariant |x| == d
      invariant forall i :: 0 <= i < d ==> x[i] == Scale(inverse, acc)[i]
    {
      var total := GlobalAcc(exp, l, w, token, head, m, d);
      ScaleAt(inverse, acc, d);
      x := x + [total * inverse];
    }
  }

  /** The looping stage 2 for one token and head. */
  method MergeSplits(exp: real -> real, l: Launch, w: Workspace, gate: Option<Vec>, output: array<real>, token: nat,
                     head: nat)
    requires Exponential(exp) && l.Valid() && Fits(w, l) && GateFits(gate, l) && output.Length == |l.query|
    requires token < l.tokens && head < l.heads
    modifies output
    ensures OutputRow(l, token, head) + l.dim <= output.Length
    ensures output[OutputRow(l, token, head)..OutputRow(l, token, head) + l.dim]
         == Gated(exp, l, gate, token, head, LoopMerge(exp, old(PartsOf(w, l, token, head)), l.dim))
    ensures forall d :: 0 <= d < l.dim ==>
      CellStored(exp, l, gate, output[..], token, head, d,
                 LoopMerge(exp, old(PartsOf(w, l, token, head)), l.dim)[d])
    ensures OtherRowsKept(l, old(output[..]), output[..], token, head)
  {
    hide *;
    var x := MergedRow(exp, l, w, token, head);
    StoreRow(exp, l, gate, output, token, head, x);
  }

  // ----- stage 1 and stage 2 together -----

  function Boundaries(chunk: nat, splits: nat, length: nat): (cuts: seq<nat>)
    ensures |cuts| == splits + 1
    ensures forall s :: 0 <= s <= splits ==> cuts[s] == Cut(chunk, s, length)
  {
    seq(splits + 1, s requires 0 <= s => Cut(chunk, s, length))
  }

  lemma BoundariesAreCuts(chunk: nat, splits: nat, length: nat)
    ensures Cuts(Boundaries(chunk, splits, length), length) && Boundaries(chunk, splits, length)[0] == 0
  {
    hide Cut;
    var cuts := Boundaries(chunk, splits, length);
    forall i, j | 0 <= i <= j < |cuts| ensures cuts[i] <= cuts[j] { CutMonotone(chunk, i, j, length); }
    CutZero(chunk, length);
  }

  lemma CutZero(chunk: nat, length: nat)
    ensures Cut(chunk, 0, length) == 0
  {}

  /** Every split of one token and head is finished. */
  ghost predicate SplitsDone(exp: real -> real, w: Workspace, l: Launch, chunk: nat, token: nat, head: nat)
    requires l.Valid() && Fits(w, l) && token < l.tokens && head < l.heads && Length(l, token) <= l.capacity
    reads w.max, w.sum, w.acc
  {
    forall split :: 0 <= split < l.splits ==> ItemDone(exp, w, l, chunk, split, token, head)
  }

  /** What stage 1 owes stage 2 for one row: the causal prefix in pieces of `chunk` positions. */
  function ExactParts(exp: real -> real, l: Launch, chunk: nat, token: nat, head: nat): (p: seq<Partial>)
    requires l.Valid() && token < l.tokens && head < l.heads && Length(l, token) <= l.capacity
    ensures |p| == l.splits && PartsSized(p, l.dim)
  {
    var n := Length(l, token);
    BoundariesAreCuts(chunk, l.splits, n);
    Pieces(exp, Scores(l, token, head, n), Values(l, head, n), l.dim, Boundaries(chunk, l.splits, n))
  }

  /** The finished slots are those pieces. */
  lemma SlotsArePieces(exp: real -> real, w: Workspace, l: Launch, chunk: nat, token: nat, head: nat)
    requires l.Valid() && Fits(w, l) && token < l.tokens && head < l.heads && Length(l, token) <= l.capacity
    requires SplitsDone(exp, w, l, chunk, token, head)
    ensures PartsOf(w, l, token, head) == ExactParts(exp, l, chunk, token, head)
  {
    hide Score, ValueRow, Summary, Exact, Slot, SlotIndex, SlotCount, Fits, Cut, KvHead;
    var n := Length(l, token);
    var cuts := Boundaries(chunk, l.splits, n);
    BoundariesAreCuts(chunk, l.splits, n);
    var pieces := ExactParts(exp, l, chunk, token, head);
    var parts := PartsOf(w, l, token, head);
    forall s | 0 <= s < l.splits ensures parts[s] == pieces[s] {
      assert ItemDone(exp, w, l, chunk, s, token, head);
      CutMonotone(chunk, s, s + 1, n);
      ExactFrom(exp, l, token, head, cuts[s], cuts[s + 1], n);
    }
  }

  /** For any chunk size whose splits cover the causal prefix, the pieces merge to exact attention. */
  lemma PiecesMergeToAttention(exp: real -> real, l: Launch, chunk: nat, token: nat, head: nat)
    requires Exponential(exp) && l.Valid() && token < l.tokens && head < l.heads && Length(l, token) <= l.capacity
    requires Cut(chunk, l.splits, Length(l, token)) == Length(l, token)
    ensures LoopMerge(exp, ExactParts(exp, l, chunk, token, head), l.dim) == Attend(exp, l, token, head)
  {
    var n := Length(l, token);
    hide Exponential, Score, ValueRow, KvHead, LoopMerge, Mean, Cut, Pieces, Cuts, Sized;
    BoundariesAreCuts(chunk, l.splits, n);
    AnyDivisionAnyOrder(exp, Scores(l, token, head, n), Values(l, head, n), l.dim,
                        Boundaries(chunk, l.splits, n), ExactParts(exp, l, chunk, token, head));
  }

  /** So do the finished slots. */
  lemma SplitsMergeToAttention(exp: real -> real, w: Workspace, l: Launch, chunk: nat, token: nat, head: nat)
    requires Exponential(exp) && l.Valid() && Fits(w, l) && token < l.tokens && head < l.heads
    requires Length(l, token) <= l.capacity
    requires Cut(chunk, l.splits, Length(l, token)) == Length(l, token)
    requires SplitsDone(exp, w, l, chunk, token, head)
    ensures LoopMerge(exp, PartsOf(w, l, token, head), l.dim) == Attend(exp, l, token, head)
  {
    hide *;
    SlotsArePieces(exp, w, l, chunk, token, head);
    PiecesMergeToAttention(exp, l, chunk, token, head);
  }

  /** The merged maximum is a number and the merged denominator at least one: stage 2 never takes
      its fallback for a zero denominator, with or without skipping empty splits. */
  lemma DenominatorAtLeastOne(exp: real -> real, w: Workspace, l: Launch, chunk: nat, token: nat, head: nat)
    requires Exponential(exp) && l.Valid() && Fits(w, l) && token < l.tokens && head < l.heads
    requires Length(l, token) <= l.capacity
    requires Cut(chunk, l.splits, Length(l, token)) == Length(l, token)
    requires SplitsDone(exp, w, l, chunk, token, head)
    ensures var parts := PartsOf(w, l, token, head); var m := MaxOf(parts, l.splits);
      && m.Fin? && WeighedSum(exp, parts, m.value, l.splits) >= 1.0
      && Screened(parts, l.dim) == parts
  {
    hide Exponential, Score, ValueRow, KvHead, Fits, PartsOf, SplitsDone, MaxOf, WeighedSum, WeighedAcc, MaxScore,
         SumExp, AccExp, Sized, Cut, Cuts, Pieces, AllLive, Screened;
    var n := Length(l, token);
    var s, v, cuts := Scores(l, token, head, n), Values(l, head, n), Boundaries(chunk, l.splits, n);
    SlotsArePieces(exp, w, l, chunk, token, head);
    BoundariesAreCuts(chunk, l.splits, n);
    PiecesAreLive(exp, s, v, l.dim, cuts);
    LiveIsProper(PartsOf(w, l, token, head), l.dim);
    SumAtLeastOne(exp, s, v, l.dim, 0, n);
    SummaryIs(exp, s, v, l.dim, 0, n);
    PiecesWeigh(exp, s, v, l.dim, cuts, MaxScore(s, 0, n).value, l.splits);
  }
}
