/** The pieces every stage-1 kernel is made of: the score of a position across the lanes, the
    online update, and the store of a partial result into its slot. */
module Stage1 {
  import opened LinearAlgebra
  import opened Layout
  import opened Softmax
  import opened OnlineSoftmax
  import opened Butterfly
  import opened WaveDot
  import opened AttentionProblem

  /** The launch's head dimension is split over 2^k lanes of `width` elements. */
  ghost predicate LaneShape(l: Launch, k: nat, width: nat) {
    0 < width && l.dim == Lanes(Pow2(k), width)
  }

  /** The scores of one position for the heads a wave serves, one sub-wave of 2^k lanes each. */
  method PositionScores(l: Launch, token: nat, heads: seq<nat>, pos: nat, k: nat, width: nat)
    returns (scores: seq<real>)
    requires l.Valid() && token < l.tokens && pos < l.capacity && LaneShape(l, k, width)
    requires forall q :: 0 <= q < |heads| ==> heads[q] < l.heads
    ensures |scores| == |heads|
    ensures forall q :: 0 <= q < |heads| ==> scores[q] == Score(l, token, heads[q], pos)
  {
    hide QueryRow, KeyRow, Dot, KvHead, Pow2;
    var queries := seq(|heads|, q requires 0 <= q < |heads| => QueryRow(l, token, heads[q]));
    var keys := seq(|heads|, q requires 0 <= q < |heads| => KeyRow(l, KvHead(l, heads[q]), pos));
    var dots := WaveDots(queries, keys, k, width);
    scores := seq(|heads|, q requires 0 <= q < |heads| => dots[q] * l.scale);
  }

  /** The update of one position, as the kernels' leading lane performs it, followed by every
      lane's blend of its accumulators. */
  method OnlineUpdate(exp: real -> real, p: Partial, score: real, value: Vec) returns (r: Partial)
    requires |p.acc| == |value|
    ensures r == Push(exp, p, score, value)
  {
    hide Blend, Fade;
    var alpha, weight, sum, max := 1.0, 0.0, p.sum, p.max;
    if Above(score, max) {
      alpha := Fade(exp, max, score);
      sum := sum * alpha + 1.0;
      max := Fin(score);
      weight := 1.0;
    } else {
      weight := exp(score - max.value);
      sum := sum + weight;
    }
    r := Partial(max, sum, Blend(alpha, p.acc, weight, value));
  }

  lemma BranchlessIs(exp: real -> real, p: Partial, score: real, value: Vec, newMax: Bound, alpha: real, weight: real)
    requires |p.acc| == |value| && newMax == MaxBound(p.max, Fin(score))
    requires alpha == if newMax.Fin? then Fade(exp, p.max, newMax.value) else 1.0
    requires weight == if newMax.Fin? then exp(score - newMax.value) else 0.0
    ensures PushBranchless(exp, p, score, value)
         == Partial(newMax, p.sum * alpha + weight, Blend(alpha, p.acc, weight, value))
  {
    hide Blend, Fade, MaxBound;
  }

  /** The branchless update. */
  method FastUpdate(exp: real -> real, p: Partial, score: real, value: Vec) returns (r: Partial)
    requires |p.acc| == |value|
    ensures r == PushBranchless(exp, p, score, value)
  {
    hide *;
    var newMax := MaxBound(p.max, Fin(score));
    var alpha := if newMax.Fin? then Fade(exp, p.max, newMax.value) else 1.0;
    var weight := if newMax.Fin? then exp(score - newMax.value) else 0.0;
    var sum := p.sum * alpha + weight;
    BranchlessIs(exp, p, score, value, newMax, alpha, weight);
    r := Partial(newMax, sum, Blend(alpha, p.acc, weight, value));
  }

  /** Write a partial result into its slot; no other slot changes. */
  method StoreSlot(w: Workspace, l: Launch, slot: nat, p: Partial)
    requires Fits(w, l) && slot < SlotCount(l) && |p.acc| == l.dim
    modifies w.max, w.sum, w.acc
    ensures Slot(w, l, slot) == p
    ensures forall other :: 0 <= other < SlotCount(l) && other != slot ==> Slot(w, l, other) == old(Slot(w, l, other))
  {
    AccRow(SlotCount(l), slot, l.dim);
    var base := At(slot, 0, l.dim);
    hide SlotCount;
    w.max[slot] := p.max;
    w.sum[slot] := p.sum;
    for d := 0 to l.dim
      invariant w.max[slot] == p.max && w.sum[slot] == p.sum
      invariant forall o :: 0 <= o < SlotCount(l) && o != slot ==>
        w.max[o] == old(w.max[o]) && w.sum[o] == old(w.sum[o])
      invariant forall i :: 0 <= i < w.acc.Length ==>
        w.acc[i] == if base <= i < base + d then p.acc[i - base] else old(w.acc[i])
    {
      w.acc[base + d] := p.acc[d];
    }
    assert w.acc[base..base + l.dim] == p.acc;
    forall other | 0 <= other < SlotCount(l) && other != slot
      ensures Slot(w, l, other) == old(Slot(w, l, other))
    {
      AccRow(SlotCount(l), other, l.dim);
      if slot < other { RowsDisjoint(slot, other, l.dim); } else { RowsDisjoint(other, slot, l.dim); }
      assert w.acc[At(other, 0, l.dim)..At(other, 0, l.dim) + l.dim]
        == old(w.acc[At(other, 0, l.dim)..At(other, 0, l.dim) + l.dim]);
    }
  }

  /** The exact state of one work item. */
  function ItemState(exp: real -> real, l: Launch, chunk: nat, split: nat, token: nat, head: nat): (p: Partial)
    requires l.Valid() && token < l.tokens && head < l.heads && Length(l, token) <= l.capacity
    ensures |p.acc| == l.dim
  {
    CutMonotone(chunk, split, split + 1, Length(l, token));
    Exact(exp, l, token, head, Cut(chunk, split, Length(l, token)), Cut(chunk, split + 1, Length(l, token)))
  }

  /** The slot of one work item holds its exact state. */
  ghost predicate ItemDone(exp: real -> real, w: Workspace, l: Launch, chunk: nat, split: nat, token: nat, head: nat)
    requires l.Valid() && Fits(w, l) && split < l.splits && token < l.tokens && head < l.heads
    requires Length(l, token) <= l.capacity
    reads w.max, w.sum, w.acc
  {
    SlotInside(l, split, token, head);
    Slot(w, l, SlotIndex(l, split, token, head)) == ItemState(exp, l, chunk, split, token, head)
  }

  /** Store a finished work item. */
  method FinishItem(exp: real -> real, l: Launch, w: Workspace, chunk: nat, split: nat, token: nat, head: nat,
                    state: Partial)
    requires l.Valid() && Fits(w, l) && split < l.splits && token < l.tokens && head < l.heads
    requires Length(l, token) <= l.capacity
    requires state == ItemState(exp, l, chunk, split, token, head)
    modifies w.max, w.sum, w.acc
    ensures ItemDone(exp, w, l, chunk, split, token, head)
    ensures forall o :: 0 <= o < SlotCount(l) && o != SlotIndex(l, split, token, head) ==>
      Slot(w, l, o) == old(Slot(w, l, o))
  {
    hide Slot, ItemState, SlotCount, SlotIndex;
    SlotInside(l, split, token, head);
    StoreSlot(w, l, SlotIndex(l, split, token, head), state);
  }

  /** A split that starts at or beyond the causal length is empty; otherwise the kernel's
      [start, end) is the split's share of the positions. */
  lemma ItemRange(exp: real -> real, l: Launch, chunk: nat, split: nat, token: nat, head: nat)
    requires l.Valid() && token < l.tokens && head < l.heads && Length(l, token) <= l.capacity
    ensures var length := Length(l, token); var start := split * chunk;
      var end := if start + chunk < length then start + chunk else length;
      if start < length
      then start <= end <= length && Exact(exp, l, token, head, start, end)
        == ItemState(exp, l, chunk, split, token, head)
      else ItemState(exp, l, chunk, split, token, head) == Empty(l.dim)
  {
    hide Exact;
    SplitBounds(chunk, split, Length(l, token));
    CutMonotone(chunk, split, split + 1, Length(l, token));
    if Length(l, token) <= split * chunk {
      ExactNone(exp, l, token, head, Length(l, token));
    }
  }
}
