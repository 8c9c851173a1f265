/** The pipeline of suffix_attention_bakeoff.cpp: stage 1 by any kernel, then the stage 2 that is
    limited to 64 lanes, against the reference kernel. */
module SplitKLanes {
  import opened Wrappers
  import opened LinearAlgebra
  import opened ExpLog
  import opened Softmax
  import opened Butterfly
  import opened Wave64
  import opened AttentionProblem
  import opened Attention
  import opened OutputRows
  import opened SplitMerge
  import opened Stage1
  import opened QueryBlocks
  import opened Stage2
  import opened Stage2Lanes
  import opened Launches
  import opened SplitK
  import opened CacheLimit
  import opened MergeAlgebra
  import opened OnlineSoftmax

  // ----- stage 2 over the grid -----

  /** One of the splits that own a lane saw a position. */
  predicate SomeLane(parts: seq<Partial>) { MaxOf(parts, Reached(LANES, |parts|)).Fin? }

  /** The row this stage 2 makes of such slots. */
  function LanesRow(exp: real -> real, l: Launch, gate: Vec, parts: seq<Partial>, token: nat, head: nat): (z: Vec)
    requires Exponential(exp) && l.Valid() && |gate| == |l.query| && token < l.tokens && head < l.heads
    requires PartsSized(parts, l.dim)
    ensures |z| == l.dim
  {
    Gated(exp, l, Some(gate), token, head, LaneMerge(exp, parts, l.dim, LANES))
  }

  ghost predicate LanesRows(exp: real -> real, l: Launch, w: Workspace, gate: Vec, now: seq<real>, n: nat)
    requires Exponential(exp) && l.Valid() && Fits(w, l) && |gate| == |now| == |l.query|
    reads w.max, w.sum, w.acc
  {
    forall r {:trigger RowNumber(l, now, r)} :: 0 <= r < RowCount(l) && r < n && SomeLane(RowParts(w, l, r)) ==>
      RowNumber(l, now, r) == LanesRow(exp, l, gate, RowParts(w, l, r), RowToken(l, r), RowHead(l, r))
  }

  lemma LanesNext(exp: real -> real, l: Launch, w: Workspace, gate: Vec, mid: seq<real>, now: seq<real>, n: nat)
    requires Exponential(exp) && l.Valid() && Fits(w, l) && |gate| == |mid| == |now| == |l.query|
    requires n < RowCount(l) && LanesRows(exp, l, w, gate, mid, n)
    requires OtherRowsKept(l, mid, now, RowToken(l, n), RowHead(l, n))
    requires OutputRow(l, RowToken(l, n), RowHead(l, n)) + l.dim <= |now|
    requires SomeLane(RowParts(w, l, n)) ==>
      now[OutputRow(l, RowToken(l, n), RowHead(l, n))..OutputRow(l, RowToken(l, n), RowHead(l, n)) + l.dim]
      == LanesRow(exp, l, gate, RowParts(w, l, n), RowToken(l, n), RowHead(l, n))
    ensures LanesRows(exp, l, w, gate, now, n + 1)
  {
    hide Exponential, Fits, OtherRowsKept, RowNumber, RowToken, RowHead, RowCount, LanesRow, OutputRow, RowParts,
         SomeLane;
    RowWritten(l, mid, now, n);
  }

  /** The lane-limited stage 2 over its grid, over any workspace. */
  method LanesAll(exp: real -> real, l: Launch, w: Workspace, gate: Vec, output: array<real>)
    requires Exponential(exp) && l.Valid() && Fits(w, l) && |gate| == output.Length == |l.query|
    requires output != w.sum && output != w.acc
    modifies output
    ensures LanesRows(exp, l, w, gate, output[..], RowCount(l))
  {
    hide Exponential, Fits, OtherRowsKept, RowToken, RowHead, RowCount, Gated, LaneMerge, PartsOf, MaxOf, LanesRows;
    NoRowsYet(exp, l, w, gate, output[..]);
    for r := 0 to RowCount(l)
      invariant LanesRows(exp, l, w, gate, output[..], r)
    {
      ghost var mid := output[..];
      MergeOverLanes(exp, l, w, gate, output, RowToken(l, r), RowHead(l, r));
      LanesNext(exp, l, w, gate, mid, output[..], r);
    }
  }

  lemma NoRowsYet(exp: real -> real, l: Launch, w: Workspace, gate: Vec, now: seq<real>)
    requires Exponential(exp) && l.Valid() && Fits(w, l) && |gate| == |now| == |l.query|
    ensures LanesRows(exp, l, w, gate, now, 0)
  {}

  // ----- both stages -----

  /** The chunk a kernel cuts for a token. */
  function ChunkOf(l: Launch, kernel: Kernel, token: nat): nat
    requires l.Valid() && Suits(l, kernel) && token < l.tokens
  {
    ChunkSize(Reach(l, kernel, token), l.splits)
  }

  /** Whatever the kernel, its chunks cover the token's causal length. */
  lemma KernelChunkCovers(l: Launch, kernel: Kernel, token: nat)
    requires l.Valid() && Suits(l, kernel) && token < l.tokens
    ensures Length(l, token) <= Reach(l, kernel, token)
    ensures Cut(ChunkOf(l, kernel, token), l.splits, Length(l, token)) == Length(l, token)
  {
    hide Cut, ChunkSize, Reach, HeadsPer, LaneShape;
    ReachCovers(l, kernel, token);
    LongerChunkCovers(Reach(l, kernel, token), l.splits, Length(l, token));
  }

  /** Stage 1 by any kernel in any order, then the lane-limited stage 2, over any workspace: every row
      is made of the slots stage 1 leaves, with no assumption on the cache. */
  method StagedLanes(exp: real -> real, l: Launch, w: Workspace, gate: Vec, output: array<real>,
                     kernel: Kernel, order: seq<Item>)
    requires Exponential(exp) && l.Valid() && Fits(w, l) && |gate| == output.Length == |l.query|
    requires output != w.sum && output != w.acc && Suits(l, kernel) && WholeGrid(l, kernel, order)
    modifies w.max, w.sum, w.acc, output
    ensures forall r {:trigger RowNumber(l, output[..], r)} :: 0 <= r < RowCount(l) ==>
      var parts := StagedParts(exp, l, kernel, old(RowParts(w, l, r)), RowToken(l, r), RowHead(l, r));
      SomeLane(parts) ==> RowNumber(l, output[..], r) == LanesRow(exp, l, gate, parts, RowToken(l, r), RowHead(l, r))
  {
    hide Exponential, Fits, Suits, WholeGrid, RowNumber, RowToken, RowHead, RowCount, AllFinished, StagedParts, Reach,
         LanesRow, SomeLane;
    Stage1All(exp, l, w, kernel, order);
    forall r {:trigger RowParts(w, l, r)} | 0 <= r < RowCount(l)
      ensures RowParts(w, l, r) == StagedParts(exp, l, kernel, old(RowParts(w, l, r)), RowToken(l, r), RowHead(l, r))
    {
      SlotsStaged(exp, l, w, kernel, old(RowParts(w, l, r)), RowToken(l, r), RowHead(l, r));
    }
    LanesAll(exp, l, w, gate, output);
  }

  /** Where the workgroup fits the cache, the row is the lane-limited merge of the kernel's own
      chunks, gated. */
  lemma StagedLanesFits(exp: real -> real, l: Launch, gate: Vec, kernel: Kernel, initial: seq<Partial>,
                        token: nat, head: nat)
    requires Exponential(exp) && l.Valid() && |gate| == |l.query| && Suits(l, kernel)
    requires token < l.tokens && head < l.heads && Reach(l, kernel, token) <= l.capacity
    requires |initial| == l.splits && PartsSized(initial, l.dim)
    ensures Length(l, token) <= l.capacity
    ensures var parts := StagedParts(exp, l, kernel, initial, token, head);
      SomeLane(parts)
      && LanesRow(exp, l, gate, parts, token, head)
         == Gated(exp, l, Some(gate), token, head, LaneOutput(exp, l, ChunkOf(l, kernel, token), token, head))
  {
    KernelChunkCovers(l, kernel, token);
    FirstSplitIsLive(exp, l, ChunkOf(l, kernel, token), token, head);
    hide Exponential, ExactParts, Reach, HeadsPer, LaneShape, ChunkSize, Cut, MaxOf, LaneMerge, Gated;
  }

  /** That pipeline gives the reference kernel's row wherever the workgroup fits the cache and 64 of
      the kernel's chunks cover the causal length; up to 64 splits, when the launch fits, the
      outputs are equal. */
  method CompareLanes(exp: real -> real, l: Launch, w: Workspace, gate: Vec, output: array<real>, expected: array<real>,
                      kernel: Kernel, order: seq<Item>, k: nat, width: nat)
    requires Exponential(exp) && l.Valid() && Fits(w, l) && |gate| == |l.query| && LaneShape(l, k, width)
    requires output.Length == expected.Length == |l.query| && output != expected
    requires output != w.sum && output != w.acc && expected != w.sum && expected != w.acc
    requires Suits(l, kernel) && WholeGrid(l, kernel, order)
    modifies w.max, w.sum, w.acc, output, expected
    ensures ReferenceRows(exp, l, Some(gate), old(expected[..]), expected[..], RowCount(l))
    ensures forall r {:trigger RowNumber(l, output[..], r)} ::
      0 <= r < RowCount(l) && Reach(l, kernel, RowToken(l, r)) <= l.capacity
      && (l.splits <= 64 || Length(l, RowToken(l, r)) <= 64 * ChunkOf(l, kernel, RowToken(l, r))) ==>
      RowNumber(l, output[..], r) == RowNumber(l, expected[..], r)
    ensures l.splits <= 64 && l.base + l.tokens <= l.capacity ==> output[..] == expected[..]
  {
    hide Exponential, Fits, LaneShape, WholeGrid, RowNumber, RowToken, RowHead, RowCount, Reach, HeadsPer, ChunkOf,
         LanesRow, SomeLane, StagedParts, ReferenceRow, RowParts;
    ReferenceAll(exp, l, Some(gate), expected, k, width);
    ghost var reference, before := expected[..], old(expected[..]);
    StagedLanes(exp, l, w, gate, output, kernel, order);
    assert expected[..] == reference;
    forall r {:trigger RowNumber(l, output[..], r)}
      | 0 <= r < RowCount(l) && Reach(l, kernel, RowToken(l, r)) <= l.capacity
      && (l.splits <= 64 || Length(l, RowToken(l, r)) <= 64 * ChunkOf(l, kernel, RowToken(l, r)))
      ensures RowNumber(l, output[..], r) == RowNumber(l, expected[..], r)
    {
      LanesRowRight(exp, l, gate, kernel, old(RowParts(w, l, r)), RowNumber(l, before, r),
                    RowToken(l, r), RowHead(l, r));
    }
    if l.splits <= 64 && l.base + l.tokens <= l.capacity {
      forall r | 0 <= r < RowCount(l) ensures RowNumber(l, output[..], r) == RowNumber(l, expected[..], r) {
        ReachCovers(l, kernel, RowToken(l, r));
      }
      RowsAreAll(l, output[..], expected[..]);
    }
  }

  lemma LanesRowRight(exp: real -> real, l: Launch, gate: Vec, kernel: Kernel, initial: seq<Partial>, before: Vec,
                      token: nat, head: nat)
    requires Exponential(exp) && l.Valid() && |gate| == |l.query| && Suits(l, kernel)
    requires token < l.tokens && head < l.heads && Reach(l, kernel, token) <= l.capacity
    requires |initial| == l.splits && PartsSized(initial, l.dim) && |before| == l.dim
    requires l.splits <= 64 || Length(l, token) <= 64 * ChunkOf(l, kernel, token)
    ensures var parts := StagedParts(exp, l, kernel, initial, token, head);
      && SomeLane(parts)
      && LanesRow(exp, l, gate, parts, token, head) == ReferenceRow(exp, l, Some(gate), before, token, head)
  {
    hide Exponential, Reach, HeadsPer, LaneShape, ChunkOf, LanesRow, SomeLane, StagedParts, Gated, LaneOutput, Attend;
    StagedLanesFits(exp, l, gate, kernel, initial, token, head);
    LanesSuffice(exp, l, kernel, token, head);
  }

  lemma LanesSuffice(exp: real -> real, l: Launch, kernel: Kernel, token: nat, head: nat)
    requires Exponential(exp) && l.Valid() && Suits(l, kernel) && token < l.tokens && head < l.heads
    requires Length(l, token) <= l.capacity
    requires l.splits <= 64 || Length(l, token) <= 64 * ChunkOf(l, kernel, token)
    ensures LaneOutput(exp, l, ChunkOf(l, kernel, token), token, head) == Attend(exp, l, token, head)
  {
    hide *;
    KernelChunkCovers(l, kernel, token);
    if l.splits <= 64 {
      SixtyFourSplitsSuffice(exp, l, ChunkOf(l, kernel, token), token, head);
    } else {
      LaneOutputIsRight(exp, l, ChunkOf(l, kernel, token), token, head);
    }
  }

  // ----- exactly when it is right -----

  /** For every kernel: right for every value cache exactly when 64 of its own chunks cover the
      token's causal length. */
  lemma KernelLaneLimit(exp: real -> real, l: Launch, kernel: Kernel, token: nat, head: nat)
    requires Exponential(exp) && l.Valid() && Suits(l, kernel) && token < l.tokens && head < l.heads
    requires Length(l, token) <= l.capacity && 0 < l.dim
    ensures AlwaysRight(exp, l, ChunkOf(l, kernel, token), token, head)
      <==> Length(l, token) <= 64 * ChunkSize(Reach(l, kernel, token), l.splits)
  {
    hide Exponential, AlwaysRight, Reach, ChunkSize, HeadsPer, LaneShape, Cut;
    KernelChunkCovers(l, kernel, token);
    LaneLimitIsExact(exp, l, ChunkOf(l, kernel, token), token, head);
  }

  /** This pipeline leaves the reference kernel's row for these initial slots and this initial row. */
  ghost predicate LanesRightFor(exp: real -> real, l: Launch, gate: Vec, kernel: Kernel, initial: seq<Partial>,
                                before: Vec, token: nat, head: nat)
    requires Exponential(exp) && l.Valid() && |gate| == |l.query| && Suits(l, kernel)
    requires token < l.tokens && head < l.heads
    requires |initial| == l.splits && PartsSized(initial, l.dim) && |before| == l.dim
  {
    var parts := StagedParts(exp, l, kernel, initial, token, head);
    LanesRow(exp, l, gate, parts, token, head) == ReferenceRow(exp, l, Some(gate), before, token, head)
  }

  /** ... for all of them that hold a number in a lane. */
  ghost predicate LanesAlwaysRight(exp: real -> real, l: Launch, gate: Vec, kernel: Kernel, token: nat, head: nat)
    requires Exponential(exp) && l.Valid() && |gate| == |l.query| && Suits(l, kernel)
    requires token < l.tokens && head < l.heads
  {
    forall initial: seq<Partial>, before: Vec ::
      |initial| == l.splits && PartsSized(initial, l.dim) && |before| == l.dim && SomeLane(initial) ==>
      LanesRightFor(exp, l, gate, kernel, initial, before, token, head)
  }

  /** Slots with one live split merge to that split here too. */
  lemma StaleLanes(exp: real -> real, splits: nat, size: nat, v: Vec)
    requires Exponential(exp) && 0 < splits && |v| == size
    ensures SomeLane(Stale(splits, size, v)) && LaneMerge(exp, Stale(splits, size, v), size, LANES) == v
  {
    hide Exponential, Scale, MergeAll, Merge, AllProper, Fade;
    var parts, n := Stale(splits, size, v), Reached(LANES, splits);
    StaleIsProper(splits, size, v);
    assert parts[..n] == Stale(n, size, v) && parts[..splits] == parts;
    StaleMerges(exp, n, size, v);
    StaleMerges(exp, splits, size, v);
    MergeAllAt(exp, parts, size, 0.0, n);
    MergeAllAt(exp, parts, size, 0.0, splits);
    FadeAt(exp, 0.0, 0.0);
    ExpZero(exp, 0.0 - 0.0);
    ScaleOne(v);
  }

  lemma StaleIsProper(splits: nat, size: nat, v: Vec)
    requires 0 < splits && |v| == size
    ensures AllProper(Stale(splits, size, v), size)
  {}

  /** The workgroup fits the cache, and 64 of its chunks cover the token's causal length or attention
      vanishes. */
  ghost predicate CoversOrVanishes(exp: real -> real, l: Launch, kernel: Kernel, token: nat, head: nat)
    requires Exponential(exp) && l.Valid() && Suits(l, kernel) && token < l.tokens && head < l.heads
  {
    ReachCovers(l, kernel, token);
    Reach(l, kernel, token) <= l.capacity
    && (Length(l, token) <= 64 * ChunkOf(l, kernel, token) || Attend(exp, l, token, head) == Zero(l.dim))
  }

  /** Exactly when the lane-limited pipeline leaves the reference kernel's row from every initial
      workspace and output: the workgroup fits the cache, and 64 of its chunks cover the token's
      causal length or attention vanishes. */
  lemma LanesRowIsRight(exp: real -> real, l: Launch, gate: Vec, kernel: Kernel, token: nat, head: nat)
    requires Exponential(exp) && l.Valid() && |gate| == |l.query| && Suits(l, kernel)
    requires token < l.tokens && head < l.heads && 0 < l.dim
    ensures LanesAlwaysRight(exp, l, gate, kernel, token, head)
      <==> CoversOrVanishes(exp, l, kernel, token, head)
  {
    hide Exponential, Reach, HeadsPer, LaneShape, ChunkOf, LanesRightFor, SomeLane, Attend, Stale;
    ReachCovers(l, kernel, token);
    StaleLanes(exp, l.splits, l.dim, Zero(l.dim));
    if Reach(l, kernel, token) <= l.capacity {
      var right := Length(l, token) <= 64 * ChunkOf(l, kernel, token) || Attend(exp, l, token, head) == Zero(l.dim);
      forall initial: seq<Partial>, before: Vec
        | |initial| == l.splits && PartsSized(initial, l.dim) && |before| == l.dim
        ensures LanesRightFor(exp, l, gate, kernel, initial, before, token, head) <==> right
      {
        FittingLanesRight(exp, l, gate, kernel, initial, before, token, head);
      }
      var stale := Stale(l.splits, l.dim, Zero(l.dim));
      assert LanesRightFor(exp, l, gate, kernel, stale, Zero(l.dim), token, head) <==> right;
    } else {
      var initial := LanesBeyondCache(exp, l, gate, kernel, Zero(l.dim), token, head);
    }
  }

  lemma FittingLanesRight(exp: real -> real, l: Launch, gate: Vec, kernel: Kernel, initial: seq<Partial>, before: Vec,
                          token: nat, head: nat)
    requires Exponential(exp) && l.Valid() && |gate| == |l.query| && Suits(l, kernel)
    requires token < l.tokens && head < l.heads && Reach(l, kernel, token) <= l.capacity
    requires |initial| == l.splits && PartsSized(initial, l.dim) && |before| == l.dim
    ensures Length(l, token) <= l.capacity
    ensures LanesRightFor(exp, l, gate, kernel, initial, before, token, head)
      <==> Length(l, token) <= 64 * ChunkOf(l, kernel, token) || Attend(exp, l, token, head) == Zero(l.dim)
  {
    hide Exponential, Reach, HeadsPer, LaneShape, ChunkOf, LanesRow, SomeLane, StagedParts, Gated, LaneOutput, Attend,
         Cut;
    StagedLanesFits(exp, l, gate, kernel, initial, token, head);
    KernelChunkCovers(l, kernel, token);
    var x, y := LaneOutput(exp, l, ChunkOf(l, kernel, token), token, head), Attend(exp, l, token, head);
    LaneOutputIsRight(exp, l, ChunkOf(l, kernel, token), token, head);
    if Gated(exp, l, Some(gate), token, head, x) == Gated(exp, l, Some(gate), token, head, y) {
      GateSeparates(exp, l, Some(gate), token, head, x, y);
    }
  }

  lemma LanesBeyondCache(exp: real -> real, l: Launch, gate: Vec, kernel: Kernel, before: Vec, token: nat, head: nat)
    returns (initial: seq<Partial>)
    requires Exponential(exp) && l.Valid() && |gate| == |l.query| && Suits(l, kernel)
    requires token < l.tokens && head < l.heads
    requires 0 < l.dim && |before| == l.dim && l.capacity < Reach(l, kernel, token)
    ensures |initial| == l.splits && PartsSized(initial, l.dim) && SomeLane(initial)
    ensures !LanesRightFor(exp, l, gate, kernel, initial, before, token, head)
  {
    hide Exponential, LaneMerge, Gated, Reach, HeadsPer, LaneShape, ReferenceRow, Stale, SomeLane;
    var x, y := Zero(l.dim), seq(l.dim, d => 1.0);
    assert x[0] != y[0];
    StaleLanes(exp, l.splits, l.dim, x);
    StaleLanes(exp, l.splits, l.dim, y);
    if LanesRightFor(exp, l, gate, kernel, Stale(l.splits, l.dim, x), before, token, head)
      && LanesRightFor(exp, l, gate, kernel, Stale(l.splits, l.dim, y), before, token, head)
    {
      GateSeparates(exp, l, Some(gate), token, head, x, y);
      assert false;
    }
    initial := if LanesRightFor(exp, l, gate, kernel, Stale(l.splits, l.dim, x), before, token, head)
      then Stale(l.splits, l.dim, y) else Stale(l.splits, l.dim, x);
  }

  /** The program's own launch. */
  ghost predicate ProgramLaunch(l: Launch) {
    && l.Valid() && l.tokens == 512 && l.base == 65536 && l.capacity == 67072
    && l.heads == 24 && l.kvHeads == 4 && l.dim == 256
  }

  lemma ChunkAtMost(length: nat, splits: nat)
    requires 96 <= splits && length <= 66048
    ensures 64 * ChunkSize(length, splits) <= 44032
  {
    var n := length + splits - 1;
    assert n == n / splits * splits + n % splits;
    if 689 <= n / splits {
      ProductAtLeast(n / splits, splits);
      assert false;
    }
  }

  lemma ProductAtLeast(q: nat, splits: nat)
    requires 689 <= q && 96 <= splits
    ensures q * splits > 66048 + splits - 1
  {
    assert q * splits >= 689 * splits;
  }

  /** With 96 splits or more, as the program's table runs it, every row is wrong for some value
      cache, whichever kernel fills the workspace. */
  lemma ProgramLaunchFails(exp: real -> real, l: Launch, kernel: Kernel, token: nat, head: nat)
    requires Exponential(exp) && ProgramLaunch(l) && 96 <= l.splits && Suits(l, kernel) && token < 512 && head < 24
    ensures Length(l, token) <= Reach(l, kernel, token) <= l.capacity
    ensures !AlwaysRight(exp, l, ChunkOf(l, kernel, token), token, head)
  {
    hide Exponential, AlwaysRight, Reach, ChunkSize, HeadsPer, LaneShape;
    ReachCovers(l, kernel, token);
    KernelLaneLimit(exp, l, kernel, token, head);
    ChunkAtMost(Reach(l, kernel, token), l.splits);
  }

  /** The program's unrolled half-wave kernel and its query-tiled ones suit that launch. */
  lemma ProgramKernels(l: Launch, size: nat)
    requires ProgramLaunch(l) && 0 < size
    ensures Suits(l, UnrolledKernel(5, 8, 4)) && Suits(l, DirectKernel(6, 4)) && Suits(l, QueryTiledKernel(6, 4, size))
  {
    SixLevels();
    assert Pow2(6) == 2 * Pow2(5);
  }
}
