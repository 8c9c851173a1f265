/** Half-wave kernels: one wave serves two query heads, 32 lanes each, and walks its split in
    groups of UNROLL positions followed by a remainder loop. */
module Stage1HalfWave {
  import opened LinearAlgebra
  import opened ExpLog
  import opened Softmax
  import opened OnlineSoftmax
  import opened AttentionProblem
  import opened Stage1

  /** scores[u] belongs to position pos + u. */
  ghost predicate ScoresAt(scores: seq<real>, l: Launch, token: nat, head: nat, pos: nat)
    requires l.Valid() && token < l.tokens && head < l.heads && pos + |scores| <= l.capacity
  {
    forall u {:trigger scores[u]} :: 0 <= u < |scores| ==> scores[u] == Score(l, token, head, pos + u)
  }

  ghost predicate ValuesAt(values: seq<Vec>, l: Launch, head: nat, pos: nat)
    requires l.Valid() && head < l.heads && pos + |values| <= l.capacity
  {
    forall u {:trigger values[u]} :: 0 <= u < |values| ==> values[u] == ValueRow(l, KvHead(l, head), pos + u)
  }

  /** Load and reduce UNROLL positions for both heads before consuming any of them. */
  method StageScores(l: Launch, token: nat, head0: nat, head1: nat, pos: nat, n: nat, k: nat, width: nat)
    returns (scores0: seq<real>, scores1: seq<real>)
    requires l.Valid() && token < l.tokens && head0 < l.heads && head1 < l.heads && pos + n <= l.capacity
    requires LaneShape(l, k, width)
    ensures |scores0| == |scores1| == n
    ensures ScoresAt(scores0, l, token, head0, pos) && ScoresAt(scores1, l, token, head1, pos)
  {
    hide Score, LaneShape;
    scores0, scores1 := [], [];
    for u := 0 to n
      invariant |scores0| == |scores1| == u
      invariant ScoresAt(scores0, l, token, head0, pos) && ScoresAt(scores1, l, token, head1, pos)
    {
      var s := PositionScores(l, token, [head0, head1], pos + u, k, width);
      assert s[0] == Score(l, token, [head0, head1][0], pos + u) && s[1] == Score(l, token, [head0, head1][1], pos + u);
      scores0, scores1 := scores0 + [s[0]], scores1 + [s[1]];
    }
  }

  method StageValues(l: Launch, head: nat, pos: nat, n: nat) returns (values: seq<Vec>)
    requires l.Valid() && head < l.heads && pos + n <= l.capacity
    ensures |values| == n && ValuesAt(values, l, head, pos)
    ensures forall u :: 0 <= u < n ==> |values[u]| == l.dim
  {
    hide ValueRow, KvHead;
    values := seq(n, u requires 0 <= u < n => ValueRow(l, KvHead(l, head), pos + u));
  }

  /** The update loop over a staged group, for one sub-wave. */
  method Consume(exp: real -> real, l: Launch, token: nat, head: nat, ghost start: nat, pos: nat,
                 scores: seq<real>, values: seq<Vec>, state: Partial) returns (r: Partial)
    requires Exponential(exp) && l.Valid() && token < l.tokens && head < l.heads && start <= pos
    requires |scores| == |values| && pos + |scores| <= l.capacity
    requires ScoresAt(scores, l, token, head, pos) && ValuesAt(values, l, head, pos)
    requires state == Exact(exp, l, token, head, start, pos)
    ensures r == Exact(exp, l, token, head, start, pos + |scores|)
  {
    hide Exponential, Score, ValueRow, KvHead, Exact, Push;
    r := state;
    for u := 0 to |scores|
      invariant r == Exact(exp, l, token, head, start, pos + u)
    {
      ExactNext(exp, l, token, head, start, pos + u);
      r := OnlineUpdate(exp, r, scores[u], values[u]);
    }
  }

  /** The two slots one wave writes. */
  predicate OfPair(l: Launch, split: nat, token: nat, pair: nat, slot: nat) {
    slot == SlotIndex(l, split, token, 2 * pair) || slot == SlotIndex(l, split, token, 2 * pair + 1)
  }

  /** Candidate J: unrolled main loop, then the remainder. */
  method Unrolled(exp: real -> real, l: Launch, w: Workspace, unroll: nat, pair: nat, token: nat, split: nat, k: nat,
                  width: nat)
    requires Exponential(exp) && l.Valid() && Fits(w, l) && LaneShape(l, k, width) && 0 < unroll
    requires 2 * pair + 1 < l.heads && token < l.tokens && split < l.splits
    modifies w.max, w.sum, w.acc
    ensures Length(l, token) <= l.capacity ==>
      ItemDone(exp, w, l, ChunkSize(Length(l, token), l.splits), split, token, 2 * pair)
    ensures Length(l, token) <= l.capacity ==>
      ItemDone(exp, w, l, ChunkSize(Length(l, token), l.splits), split, token, 2 * pair + 1)
    ensures forall o ::
      0 <= o < SlotCount(l) && (!OfPair(l, split, token, pair, o) || l.capacity < Length(l, token)) ==>
      Slot(w, l, o) == old(Slot(w, l, o))
  {
    hide Exponential, LaneShape, Fits, Slot, Exact, ItemState, Score, ValueRow, KvHead, SlotIndex, SlotCount, Cut,
         ChunkSize, ItemDone, ScoresAt, ValuesAt;
    var length := Length(l, token);
    if length > l.capacity { return; }
    var head0, head1 := 2 * pair, 2 * pair + 1;
    var chunk := ChunkSize(length, l.splits);
    var start := split * chunk;
    var end := if start + chunk < length then start + chunk else length;
    ItemRange(exp, l, chunk, split, token, head0);
    ItemRange(exp, l, chunk, split, token, head1);
    var state0, state1 := Empty(l.dim), Empty(l.dim);
    if start < length {
      ExactNone(exp, l, token, head0, start);
      ExactNone(exp, l, token, head1, start);
      var pos := start;
      while pos + unroll <= end
        invariant start <= pos <= end
        invariant state0 == Exact(exp, l, token, head0, start, pos)
        invariant state1 == Exact(exp, l, token, head1, start, pos)
        modifies {}
      {
        var scores0, scores1 := StageScores(l, token, head0, head1, pos, unroll, k, width);
        var values0 := StageValues(l, head0, pos, unroll);
        var values1 := StageValues(l, head1, pos, unroll);
        state0 := Consume(exp, l, token, head0, start, pos, scores0, values0, state0);
        state1 := Consume(exp, l, token, head1, start, pos, scores1, values1, state1);
        pos := pos + unroll;
      }
      while pos < end
        invariant start <= pos <= end
        invariant state0 == Exact(exp, l, token, head0, start, pos)
        invariant state1 == Exact(exp, l, token, head1, start, pos)
        modifies {}
      {
        var scores0, scores1 := StageScores(l, token, head0, head1, pos, 1, k, width);
        var values0 := StageValues(l, head0, pos, 1);
        var values1 := StageValues(l, head1, pos, 1);
        state0 := Consume(exp, l, token, head0, start, pos, scores0, values0, state0);
        state1 := Consume(exp, l, token, head1, start, pos, scores1, values1, state1);
        pos := pos + 1;
      }
    }
    FinishPair(exp, l, w, chunk, split, token, head0, head1, state0, state1);
  }

  /** Both heads' slots are stored; they are different slots. */
  method FinishPair(exp: real -> real, l: Launch, w: Workspace, chunk: nat, split: nat, token: nat, head0: nat,
                    head1: nat, state0: Partial, state1: Partial)
    requires l.Valid() && Fits(w, l) && split < l.splits && token < l.tokens && head0 < l.heads && head1 < l.heads
    requires head0 != head1
    requires Length(l, token) <= l.capacity
    requires state0 == ItemState(exp, l, chunk, split, token, head0)
    requires state1 == ItemState(exp, l, chunk, split, token, head1)
    modifies w.max, w.sum, w.acc
    ensures ItemDone(exp, w, l, chunk, split, token, head0) && ItemDone(exp, w, l, chunk, split, token, head1)
    ensures forall o ::
      0 <= o < SlotCount(l) && o != SlotIndex(l, split, token, head0) && o != SlotIndex(l, split, token, head1) ==>
      Slot(w, l, o) == old(Slot(w, l, o))
  {
    hide Slot, ItemState, SlotCount, SlotIndex;
    SlotInside(l, split, token, head0);
    SlotInside(l, split, token, head1);
    SlotInjective(l, split, token, head0, split, token, head1);
    FinishItem(exp, l, w, chunk, split, token, head0, state0);
    FinishItem(exp, l, w, chunk, split, token, head1, state1);
  }
}
