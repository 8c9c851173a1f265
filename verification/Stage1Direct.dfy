/** Stage-1 kernels that walk their split one position at a time: one wave per
    (token, head, split), with the branchy and with the branchless update. */
module Stage1Direct {
  import opened ExpLog
  import opened Softmax
  import opened OnlineSoftmax
  import opened AttentionProblem
  import opened Stage1
  import opened AttentionFlat

  /** Candidate A: one wave, branch on the running maximum. */
  method OneWave(exp: real -> real, l: Launch, w: Workspace, head: nat, token: nat, split: nat, k: nat, width: nat)
    requires Exponential(exp) && l.Valid() && Fits(w, l) && LaneShape(l, k, width)
    requires head < l.heads && token < l.tokens && split < l.splits
    modifies w.max, w.sum, w.acc
    ensures Length(l, token) <= l.capacity ==>
      ItemDone(exp, w, l, ChunkSize(Length(l, token), l.splits), split, token, head)
      && SlotComputed(exp, w, l, ChunkSize(Length(l, token), l.splits), split, token, head)
    ensures forall o ::
      0 <= o < SlotCount(l) && (o != SlotIndex(l, split, token, head) || l.capacity < Length(l, token)) ==>
      Slot(w, l, o) == old(Slot(w, l, o))
  {
    hide Exponential, LaneShape, Fits, Slot, Exact, ItemState, Push, Score, ValueRow, KvHead, SlotIndex, SlotCount,
         Cut, ChunkSize, ItemDone, SlotComputed;
    var length := Length(l, token);
    if length > l.capacity { return; }
    var chunk := ChunkSize(length, l.splits);
    var start := split * chunk;
    var end := if start + chunk < length then start + chunk else length;
    ItemRange(exp, l, chunk, split, token, head);
    var state := Empty(l.dim);
    if start >= length {
      FinishItem(exp, l, w, chunk, split, token, head, state);
      DoneSlotIsComputed(exp, w, l, chunk, split, token, head);
      return;
    }
    ExactNone(exp, l, token, head, start);
    for pos := start to end
      invariant state == Exact(exp, l, token, head, start, pos)
      modifies {}
    {
      var scores := PositionScores(l, token, [head], pos, k, width);
      ExactNext(exp, l, token, head, start, pos);
      state := OnlineUpdate(exp, state, scores[0], ValueRow(l, KvHead(l, head), pos));
    }
    FinishItem(exp, l, w, chunk, split, token, head, state);
    DoneSlotIsComputed(exp, w, l, chunk, split, token, head);
  }

  /** Candidate F: the same walk with the branchless update. */
  method Fast(exp: real -> real, l: Launch, w: Workspace, head: nat, token: nat, split: nat, k: nat, width: nat)
    requires Exponential(exp) && l.Valid() && Fits(w, l) && LaneShape(l, k, width)
    requires head < l.heads && token < l.tokens && split < l.splits
    modifies w.max, w.sum, w.acc
    ensures Length(l, token) <= l.capacity ==>
      ItemDone(exp, w, l, ChunkSize(Length(l, token), l.splits), split, token, head)
    ensures forall o ::
      0 <= o < SlotCount(l) && (o != SlotIndex(l, split, token, head) || l.capacity < Length(l, token)) ==>
      Slot(w, l, o) == old(Slot(w, l, o))
  {
    hide Exponential, LaneShape, Fits, Slot, Exact, ItemState, Push, PushBranchless, Score, ValueRow, KvHead,
         SlotIndex, SlotCount, Cut, ChunkSize, ItemDone;
    var length := Length(l, token);
    if length > l.capacity { return; }
    var chunk := ChunkSize(length, l.splits);
    var start := split * chunk;
    var end := if start + chunk < length then start + chunk else length;
    ItemRange(exp, l, chunk, split, token, head);
    var state := Empty(l.dim);
    if start >= length {
      FinishItem(exp, l, w, chunk, split, token, head, state);
      return;
    }
    ExactNone(exp, l, token, head, start);
    for pos := start to end
      invariant state == Exact(exp, l, token, head, start, pos)
      modifies {}
    {
      var scores := PositionScores(l, token, [head], pos, k, width);
      ExactNext(exp, l, token, head, start, pos);
      BranchlessIsPush(exp, state, scores[0], ValueRow(l, KvHead(l, head), pos));
      state := FastUpdate(exp, state, scores[0], ValueRow(l, KvHead(l, head), pos));
    }
    FinishItem(exp, l, w, chunk, split, token, head, state);
  }
}
