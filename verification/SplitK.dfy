/** Stage 1 followed by the looping stage 2, against the one-pass reference kernel, row by row and
    for every launch, also where tokens exceed the cache. */
module SplitK {
  import opened Wrappers
  import opened LinearAlgebra
  import opened Layout
  import opened ExpLog
  import opened Softmax
  import opened OnlineSoftmax
  import opened AttentionProblem
  import opened Attention
  import opened AttentionFlat
  import opened OutputRows
  import opened SplitMerge
  import opened Stage1
  import opened QueryBlocks
  import opened Stage2
  import opened Launches

  // ----- the reference kernel -----

  /** One pass over the whole causal prefix, normalised and gated. */
  method OnePass(exp: real -> real, l: Launch, gate: Option<Vec>, output: array<real>,
                 token: nat, head: nat, k: nat, width: nat)
    requires Exponential(exp) && l.Valid() && GateFits(gate, l) && output.Length == |l.query|
    requires LaneShape(l, k, width) && token < l.tokens && head < l.heads
    modifies output
    ensures Length(l, token) <= l.capacity ==>
      RowDone(exp, l, gate, output[..], token, head) && RowComputed(exp, l, gate, output[..], token, head)
    ensures OtherRowsKept(l, old(output[..]), output[..], token, head)
    ensures l.capacity < Length(l, token) ==> output[..] == old(output[..])
  {
    hide Exponential, LaneShape, Exact, Push, Score, ValueRow, KvHead, GateFits, OutputRow, Gated, Normalised, Attend,
         CellStored, RowComputed;
    var length := Length(l, token);
    if length > l.capacity { return; }
    var state := Empty(l.dim);
    ExactNone(exp, l, token, head, 0);
    for pos := 0 to length
      invariant state == Exact(exp, l, token, head, 0, pos)
      modifies {}
    {
      var scores := PositionScores(l, token, [head], pos, k, width);
      ExactNext(exp, l, token, head, 0, pos);
      state := OnlineUpdate(exp, state, scores[0], ValueRow(l, KvHead(l, head), pos));
    }
    ExactIsAttend(exp, l, token, head);
    StoreRow(exp, l, gate, output, token, head, Normalised(state));
    DoneIsComputed(exp, l, gate, output[..], token, head);
  }

  /** The row the reference kernel leaves: gated attention, or what was there when the token does
      not fit the cache. */
  function ReferenceRow(exp: real -> real, l: Launch, gate: Option<Vec>, before: Vec, token: nat, head: nat): (z: Vec)
    requires Exponential(exp) && l.Valid() && GateFits(gate, l) && token < l.tokens && head < l.heads
    requires |before| == l.dim
    ensures |z| == l.dim
  {
    if Length(l, token) <= l.capacity then Gated(exp, l, gate, token, head, Attend(exp, l, token, head)) else before
  }

  /** The first `n` rows are the reference kernel's, the others still as before. */
  ghost predicate ReferenceRows(exp: real -> real, l: Launch, gate: Option<Vec>, was: seq<real>, now: seq<real>, n: nat)
    requires Exponential(exp) && l.Valid() && GateFits(gate, l) && |was| == |now| == |l.query|
  {
    forall r {:trigger RowNumber(l, now, r)} :: 0 <= r < RowCount(l) ==>
      RowNumber(l, now, r)
      == if r < n then ReferenceRow(exp, l, gate, RowNumber(l, was, r), RowToken(l, r), RowHead(l, r))
         else RowNumber(l, was, r)
  }

  lemma ReferenceNext(exp: real -> real, l: Launch, gate: Option<Vec>, was: seq<real>, mid: seq<real>, now: seq<real>,
                      n: nat)
    requires Exponential(exp) && l.Valid() && GateFits(gate, l) && |was| == |mid| == |now| == |l.query|
    requires n < RowCount(l)
    requires ReferenceRows(exp, l, gate, was, mid, n) && OtherRowsKept(l, mid, now, RowToken(l, n), RowHead(l, n))
    requires Length(l, RowToken(l, n)) <= l.capacity ==> RowDone(exp, l, gate, now, RowToken(l, n), RowHead(l, n))
    requires l.capacity < Length(l, RowToken(l, n)) ==> now == mid
    ensures ReferenceRows(exp, l, gate, was, now, n + 1)
  {
    hide Exponential, GateFits, OtherRowsKept, RowNumber, RowToken, RowHead, RowCount, Attend, Gated, OutputRow;
    RowWritten(l, mid, now, n);
  }

  /** Every row of a token that fits the cache is the gated average, cell for cell. */
  ghost predicate FittingComputed(exp: real -> real, l: Launch, gate: Option<Vec>, output: seq<real>)
    requires Exponential(exp) && l.Valid()
  {
    forall token, head :: 0 <= token < l.tokens && 0 <= head < l.heads && l.base + token + 1 <= l.capacity ==>
      RowComputed(exp, l, gate, output, token, head)
  }

  /** Row token * heads + head belongs to that token and head. */
  lemma NumberedRow(exp: real -> real, l: Launch, gate: Option<Vec>, output: seq<real>, token: nat, head: nat,
                    before: Vec)
    requires Exponential(exp) && l.Valid() && GateFits(gate, l) && |output| == |l.query| && |before| == l.dim
    requires token < l.tokens && head < l.heads && l.base + token + 1 <= l.capacity
    requires At(token, head, l.heads) < RowCount(l)
    requires RowNumber(l, output, At(token, head, l.heads)) == ReferenceRow(exp, l, gate, before, token, head)
    ensures RowComputed(exp, l, gate, output, token, head)
  {
    hide Exponential, GateFits, Gated, Attend, At, RowComputed;
    OutputInside(l, token, head);
    DoneIsComputed(exp, l, gate, output, token, head);
  }

  lemma ReferenceIsComputed(exp: real -> real, l: Launch, gate: Option<Vec>, was: seq<real>, now: seq<real>)
    requires Exponential(exp) && l.Valid() && GateFits(gate, l) && |was| == |now| == |l.query|
    requires ReferenceRows(exp, l, gate, was, now, RowCount(l))
    ensures FittingComputed(exp, l, gate, now)
  {
    hide Exponential, GateFits, ReferenceRow, RowComputed, RowNumber, RowToken, RowHead, RowCount, At;
    forall token, head | 0 <= token < l.tokens && 0 <= head < l.heads && l.base + token + 1 <= l.capacity
      ensures RowComputed(exp, l, gate, now, token, head)
    {
      var r := At(token, head, l.heads);
      RowOf(l, token, head);
      NumberedRow(exp, l, gate, now, token, head, RowNumber(l, was, r));
    }
  }

  /** The reference kernel over its grid. */
  method ReferenceAll(exp: real -> real, l: Launch, gate: Option<Vec>, output: array<real>, k: nat, width: nat)
    requires Exponential(exp) && l.Valid() && GateFits(gate, l) && output.Length == |l.query| && LaneShape(l, k, width)
    modifies output
    ensures ReferenceRows(exp, l, gate, old(output[..]), output[..], RowCount(l))
    ensures FittingComputed(exp, l, gate, output[..])
  {
    hide Exponential, LaneShape, GateFits, RowDone, OtherRowsKept, RowToken, RowHead, RowCount, RowComputed,
         FittingComputed;
    ghost var was := output[..];
    for r := 0 to RowCount(l)
      invariant ReferenceRows(exp, l, gate, was, output[..], r)
    {
      ghost var mid := output[..];
      OnePass(exp, l, gate, output, RowToken(l, r), RowHead(l, r), k, width);
      hide ReferenceRows;
      ReferenceNext(exp, l, gate, was, mid, output[..], r);
    }
    ReferenceIsComputed(exp, l, gate, was, output[..]);
  }

  // ----- stage 2 -----

  /** The row the looping stage 2 makes of a row's slots, whatever they hold. */
  function LoopRow(exp: real -> real, l: Launch, gate: Option<Vec>, parts: seq<Partial>, token: nat,
                   head: nat): (z: Vec)
    requires Exponential(exp) && l.Valid() && GateFits(gate, l) && token < l.tokens && head < l.heads
    requires PartsSized(parts, l.dim)
    ensures |z| == l.dim
  {
    Gated(exp, l, gate, token, head, LoopMerge(exp, parts, l.dim))
  }

  /** The slots of row `r`. */
  function RowParts(w: Workspace, l: Launch, r: nat): (parts: seq<Partial>)
    requires l.Valid() && Fits(w, l) && r < RowCount(l)
    reads w.max, w.sum, w.acc
    ensures |parts| == l.splits && PartsSized(parts, l.dim)
  {
    PartsOf(w, l, RowToken(l, r), RowHead(l, r))
  }

  ghost predicate LoopRows(exp: real -> real, l: Launch, w: Workspace, gate: Option<Vec>, was: seq<real>,
                           now: seq<real>, n: nat)
    requires Exponential(exp) && l.Valid() && Fits(w, l) && GateFits(gate, l) && |was| == |now| == |l.query|
    reads w.max, w.sum, w.acc
  {
    forall r {:trigger RowNumber(l, now, r)} :: 0 <= r < RowCount(l) ==>
      RowNumber(l, now, r)
      == if r < n then LoopRow(exp, l, gate, RowParts(w, l, r), RowToken(l, r), RowHead(l, r))
         else RowNumber(l, was, r)
  }

  lemma LoopNext(exp: real -> real, l: Launch, w: Workspace, gate: Option<Vec>, was: seq<real>, mid: seq<real>,
                 now: seq<real>, n: nat)
    requires Exponential(exp) && l.Valid() && Fits(w, l) && GateFits(gate, l) && |was| == |mid| == |now| == |l.query|
    requires n < RowCount(l) && LoopRows(exp, l, w, gate, was, mid, n)
    requires OtherRowsKept(l, mid, now, RowToken(l, n), RowHead(l, n))
    requires OutputRow(l, RowToken(l, n), RowHead(l, n)) + l.dim <= |now|
    requires now[OutputRow(l, RowToken(l, n), RowHead(l, n))..OutputRow(l, RowToken(l, n), RowHead(l, n)) + l.dim]
          == LoopRow(exp, l, gate, RowParts(w, l, n), RowToken(l, n), RowHead(l, n))
    ensures LoopRows(exp, l, w, gate, was, now, n + 1)
  {
    hide Exponential, Fits, GateFits, OtherRowsKept, RowNumber, RowToken, RowHead, RowCount, LoopRow, OutputRow,
         RowParts;
    RowWritten(l, mid, now, n);
  }

  /** The looping stage 2 over its grid, over any workspace. */
  method Stage2All(exp: real -> real, l: Launch, w: Workspace, gate: Option<Vec>, output: array<real>)
    requires Exponential(exp) && l.Valid() && Fits(w, l) && GateFits(gate, l) && output.Length == |l.query|
    requires output != w.sum && output != w.acc
    modifies output
    ensures LoopRows(exp, l, w, gate, old(output[..]), output[..], RowCount(l))
  {
    hide Exponential, Fits, GateFits, OtherRowsKept, RowToken, RowHead, RowCount, Gated, LoopMerge, PartsOf;
    ghost var was := output[..];
    for r := 0 to RowCount(l)
      invariant LoopRows(exp, l, w, gate, was, output[..], r)
    {
      ghost var mid := output[..];
      MergeSplits(exp, l, w, gate, output, RowToken(l, r), RowHead(l, r));
      hide LoopRows;
      LoopNext(exp, l, w, gate, was, mid, output[..], r);
    }
  }

  // ----- both stages -----

  /** The slots stage 1 leaves for one row: exact pieces when the workgroup's longest causal length
      fits the cache, the initial contents otherwise. */
  function StagedParts(exp: real -> real, l: Launch, kernel: Kernel, initial: seq<Partial>, token: nat,
                       head: nat): (parts: seq<Partial>)
    requires l.Valid() && Suits(l, kernel) && token < l.tokens && head < l.heads
    requires |initial| == l.splits && PartsSized(initial, l.dim)
    ensures |parts| == l.splits && PartsSized(parts, l.dim)
  {
    ReachCovers(l, kernel, token);
    if Reach(l, kernel, token) <= l.capacity
    then ExactParts(exp, l, ChunkSize(Reach(l, kernel, token), l.splits), token, head)
    else initial
  }

  /** The row both stages leave. */
  function StagedRow(exp: real -> real, l: Launch, gate: Option<Vec>, kernel: Kernel, initial: seq<Partial>,
                     token: nat, head: nat): (z: Vec)
    requires Exponential(exp) && l.Valid() && GateFits(gate, l) && Suits(l, kernel) && token < l.tokens
    requires head < l.heads
    requires |initial| == l.splits && PartsSized(initial, l.dim)
    ensures |z| == l.dim
  {
    LoopRow(exp, l, gate, StagedParts(exp, l, kernel, initial, token, head), token, head)
  }

  /** Where the workgroup fits, it is gated attention. */
  lemma StagedRowFits(exp: real -> real, l: Launch, gate: Option<Vec>, kernel: Kernel, initial: seq<Partial>,
                      before: Vec, token: nat, head: nat)
    requires Exponential(exp) && l.Valid() && GateFits(gate, l) && Suits(l, kernel) && token < l.tokens
    requires head < l.heads
    requires |initial| == l.splits && PartsSized(initial, l.dim) && |before| == l.dim
    requires Reach(l, kernel, token) <= l.capacity
    ensures StagedRow(exp, l, gate, kernel, initial, token, head) == ReferenceRow(exp, l, gate, before, token, head)
  {
    hide Exponential, GateFits, ExactParts, LoopMerge, Attend, Gated, Reach, HeadsPer, LaneShape, Cut, ChunkSize;
    ReachCovers(l, kernel, token);
    var chunk := ChunkSize(Reach(l, kernel, token), l.splits);
    LongerChunkCovers(Reach(l, kernel, token), l.splits, Length(l, token));
    PiecesMergeToAttention(exp, l, chunk, token, head);
  }

  /** Stage 1 finishes every split of a row whose workgroup fits the cache. */
  lemma FinishedSplits(exp: real -> real, l: Launch, w: Workspace, kernel: Kernel, token: nat, head: nat)
    requires l.Valid() && Fits(w, l) && Suits(l, kernel) && token < l.tokens && head < l.heads
    requires AllFinished(exp, w, l, kernel) && Reach(l, kernel, token) <= l.capacity
    ensures Length(l, token) <= l.capacity
    ensures SplitsDone(exp, w, l, ChunkSize(Reach(l, kernel, token), l.splits), token, head)
  {
    hide Fits, Slot, SlotIndex, ItemState, Reach, HeadsPer, LaneShape, ChunkSize;
    ReachCovers(l, kernel, token);
    var chunk := ChunkSize(Reach(l, kernel, token), l.splits);
    forall split | 0 <= split < l.splits ensures ItemDone(exp, w, l, chunk, split, token, head) {
      assert Finished(exp, w, l, kernel, split, token, head);
    }
  }

  /** The slots of a row after stage 1. */
  lemma SlotsStaged(exp: real -> real, l: Launch, w: Workspace, kernel: Kernel, initial: seq<Partial>, token: nat,
                    head: nat)
    requires l.Valid() && Fits(w, l) && Suits(l, kernel) && token < l.tokens && head < l.heads
    requires |initial| == l.splits && PartsSized(initial, l.dim) && AllFinished(exp, w, l, kernel)
    requires l.capacity < Reach(l, kernel, token) ==> forall s :: 0 <= s < l.splits ==>
      SlotOf(w, l, s, token, head) == initial[s]
    ensures PartsOf(w, l, token, head) == StagedParts(exp, l, kernel, initial, token, head)
  {
    hide Fits, SplitsDone, ExactParts, Reach, HeadsPer, LaneShape, ChunkSize, SlotOf, AllFinished;
    if Reach(l, kernel, token) <= l.capacity {
      FinishedSplits(exp, l, w, kernel, token, head);
      SlotsArePieces(exp, w, l, ChunkSize(Reach(l, kernel, token), l.splits), token, head);
    }
  }

  /** Stage 1 by any kernel in any order, then stage 2: every row of the output, with no assumption
      on the cache. */
  method Staged(exp: real -> real, l: Launch, w: Workspace, gate: Option<Vec>, output: array<real>, kernel: Kernel,
                order: seq<Item>)
    requires Exponential(exp) && l.Valid() && Fits(w, l) && GateFits(gate, l) && output.Length == |l.query|
    requires output != w.sum && output != w.acc && Suits(l, kernel) && WholeGrid(l, kernel, order)
    modifies w.max, w.sum, w.acc, output
    ensures forall r {:trigger RowNumber(l, output[..], r)} :: 0 <= r < RowCount(l) ==>
      RowNumber(l, output[..], r)
      == StagedRow(exp, l, gate, kernel, old(RowParts(w, l, r)), RowToken(l, r), RowHead(l, r))
  {
    hide Exponential, Fits, GateFits, Suits, WholeGrid, RowNumber, RowToken, RowHead, RowCount, AllFinished,
         StagedParts, Reach;
    Stage1All(exp, l, w, kernel, order);
    forall r {:trigger RowParts(w, l, r)} | 0 <= r < RowCount(l)
      ensures RowParts(w, l, r) == StagedParts(exp, l, kernel, old(RowParts(w, l, r)), RowToken(l, r), RowHead(l, r))
    {
      SlotsStaged(exp, l, w, kernel, old(RowParts(w, l, r)), RowToken(l, r), RowHead(l, r));
    }
    Stage2All(exp, l, w, gate, output);
  }

  /** Every row whose workgroup fits the cache is the gated average, cell for cell. */
  ghost predicate ReachedComputed(exp: real -> real, l: Launch, gate: Option<Vec>, kernel: Kernel, output: seq<real>)
    requires Exponential(exp) && l.Valid() && 0 < TokensPer(kernel)
  {
    forall token, head ::
      0 <= token < l.tokens && 0 <= head < l.heads && Reach(l, kernel, token) <= l.capacity ==>
      RowComputed(exp, l, gate, output, token, head)
  }

  lemma SameRowsComputed(exp: real -> real, l: Launch, gate: Option<Vec>, kernel: Kernel, before: seq<real>,
                         expected: seq<real>, output: seq<real>)
    requires Exponential(exp) && l.Valid() && GateFits(gate, l) && 0 < TokensPer(kernel)
    requires |before| == |expected| == |output| == |l.query|
    requires ReferenceRows(exp, l, gate, before, expected, RowCount(l))
    requires forall r {:trigger RowNumber(l, output, r)} ::
      0 <= r < RowCount(l) && Reach(l, kernel, RowToken(l, r)) <= l.capacity ==>
      RowNumber(l, output, r) == RowNumber(l, expected, r)
    ensures ReachedComputed(exp, l, gate, kernel, output)
  {
    hide Exponential, GateFits, ReferenceRow, RowComputed, RowNumber, RowToken, RowHead, RowCount, At, Reach;
    forall token, head | 0 <= token < l.tokens && 0 <= head < l.heads && Reach(l, kernel, token) <= l.capacity
      ensures RowComputed(exp, l, gate, output, token, head)
    {
      ReachCovers(l, kernel, token);
      RowOf(l, token, head);
      var r := At(token, head, l.heads);
      assert RowNumber(l, output, r) == RowNumber(l, expected, r);
      NumberedRow(exp, l, gate, output, token, head, RowNumber(l, before, r));
    }
  }

  /** Stage 1 in any order followed by stage 2 gives the reference kernel's row wherever the longest
      causal length of the row's workgroup fits the cache, for every number of splits and every
      stage-1 kernel; when the whole launch fits, the outputs are equal. */
  method Compare(exp: real -> real, l: Launch, w: Workspace, gate: Option<Vec>, output: array<real>,
                 expected: array<real>, kernel: Kernel, order: seq<Item>, k: nat, width: nat)
    requires Exponential(exp) && l.Valid() && Fits(w, l) && GateFits(gate, l) && LaneShape(l, k, width)
    requires output.Length == expected.Length == |l.query| && output != expected
    requires output != w.sum && output != w.acc && expected != w.sum && expected != w.acc
    requires Suits(l, kernel) && WholeGrid(l, kernel, order)
    modifies w.max, w.sum, w.acc, output, expected
    ensures ReferenceRows(exp, l, gate, old(expected[..]), expected[..], RowCount(l))
    ensures forall r {:trigger RowNumber(l, output[..], r)} ::
      0 <= r < RowCount(l) && Reach(l, kernel, RowToken(l, r)) <= l.capacity ==>
      RowNumber(l, output[..], r) == RowNumber(l, expected[..], r)
    ensures l.base + l.tokens <= l.capacity ==> output[..] == expected[..]
    ensures ReachedComputed(exp, l, gate, kernel, output[..])
  {
    hide Exponential, Fits, GateFits, LaneShape, WholeGrid, RowNumber, RowToken, RowHead, RowCount, Reach, StagedRow,
         ReferenceRow, RowParts, HeadsPer, FittingComputed, ReachedComputed;
    ReferenceAll(exp, l, gate, expected, k, width);
    ghost var reference, before := expected[..], old(expected[..]);
    Staged(exp, l, w, gate, output, kernel, order);
    assert expected[..] == reference;
    forall r {:trigger RowNumber(l, output[..], r)}
      | 0 <= r < RowCount(l) && Reach(l, kernel, RowToken(l, r)) <= l.capacity
      ensures RowNumber(l, output[..], r) == RowNumber(l, expected[..], r)
    {
      StagedRowFits(exp, l, gate, kernel, old(RowParts(w, l, r)), RowNumber(l, before, r), RowToken(l, r),
                    RowHead(l, r));
    }
    SameRowsComputed(exp, l, gate, kernel, before, expected[..], output[..]);
    if l.base + l.tokens <= l.capacity {
      forall r | 0 <= r < RowCount(l) ensures RowNumber(l, output[..], r) == RowNumber(l, expected[..], r) {
        ReachCovers(l, kernel, RowToken(l, r));
      }
      RowsAreAll(l, output[..], expected[..]);
    }
  }
}
