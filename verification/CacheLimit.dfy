/** Exactly when the two stages reproduce the reference kernel: a workgroup that exceeds the cache
    writes nothing, and stage 2 then merges whatever the workspace held. */
module CacheLimit {
  import opened Wrappers
  import opened LinearAlgebra
  import opened ExpLog
  import opened Softmax
  import opened OnlineSoftmax
  import opened Butterfly
  import opened MergeAlgebra
  import opened AttentionProblem
  import opened Attention
  import opened SplitMerge
  import opened Stage1
  import opened Launches
  import opened SplitK
  import Wave64

  // ----- a workspace can make stage 2 produce any row -----

  /** One split that saw a single position with value `v`, and empty ones. */
  function Stale(splits: nat, size: nat, v: Vec): (parts: seq<Partial>)
    requires 0 < splits && |v| == size
    ensures |parts| == splits && PartsSized(parts, size)
  {
    [Partial(Fin(0.0), 1.0, v)] + seq(splits - 1, s => Empty(size))
  }

  lemma {:induction false} StaleMerges(exp: real -> real, splits: nat, size: nat, v: Vec)
    requires Exponential(exp) && 0 < splits && |v| == size
    ensures MergeAll(exp, Stale(splits, size, v), size) == Partial(Fin(0.0), 1.0, v)
  {
    hide Exponential, Merge;
    var parts, one := Stale(splits, size, v), Partial(Fin(0.0), 1.0, v);
    if splits == 1 {
      assert parts[..0] == [] && parts[0] == one;
      MergeCommutes(exp, Empty(size), one);
    } else {
      assert parts[..splits - 1] == Stale(splits - 1, size, v) && parts[splits - 1] == Empty(size);
      StaleMerges(exp, splits - 1, size, v);
    }
    MergeIdentity(exp, one, size);
  }

  /** Stage 2 turns such slots into exactly that row. */
  lemma StaleRow(exp: real -> real, splits: nat, size: nat, v: Vec)
    requires Exponential(exp) && 0 < splits && |v| == size
    ensures LoopMerge(exp, Stale(splits, size, v), size) == v
  {
    hide Exponential, LoopMerge, Scale, MergeAll;
    LoopMergeIsMergeAll(exp, Stale(splits, size, v), size);
    StaleMerges(exp, splits, size, v);
    ScaleOne(v);
  }

  /** The gate never hides a difference. */
  lemma GateSeparates(exp: real -> real, l: Launch, gate: Option<Vec>, token: nat, head: nat, x: Vec, y: Vec)
    requires Exponential(exp) && l.Valid() && GateFits(gate, l) && token < l.tokens && head < l.heads
    requires |x| == |y| == l.dim && Gated(exp, l, gate, token, head, x) == Gated(exp, l, gate, token, head, y)
    ensures x == y
  {
    hide Exponential, Sigmoid, OutputRow;
    forall d | 0 <= d < l.dim ensures x[d] == y[d] {
      assert Gated(exp, l, gate, token, head, x)[d] == Gated(exp, l, gate, token, head, y)[d];
      OutputInside(l, token, head);
      if gate.Some? { PositiveFactor(x[d], y[d], Sigmoid(exp, gate.value[OutputRow(l, token, head) + d])); }
    }
  }

  lemma PositiveFactor(x: real, y: real, f: real)
    requires f > 0.0 && x * f == y * f
    ensures x == y
  {
    ProductOrders(x, y, f);
    ProductOrders(y, x, f);
  }

  // ----- one row -----

  /** Both stages leave the reference kernel's row for these initial slots and this initial row. */
  ghost predicate RightFor(exp: real -> real, l: Launch, gate: Option<Vec>, kernel: Kernel, initial: seq<Partial>,
                           before: Vec, token: nat, head: nat)
    requires Exponential(exp) && l.Valid() && GateFits(gate, l) && Suits(l, kernel) && token < l.tokens
    requires head < l.heads
    requires |initial| == l.splits && PartsSized(initial, l.dim) && |before| == l.dim
  {
    StagedRow(exp, l, gate, kernel, initial, token, head) == ReferenceRow(exp, l, gate, before, token, head)
  }

  /** ... for all of them. */
  ghost predicate RowAlwaysRight(exp: real -> real, l: Launch, gate: Option<Vec>, kernel: Kernel, token: nat, head: nat)
    requires Exponential(exp) && l.Valid() && GateFits(gate, l) && Suits(l, kernel) && token < l.tokens
    requires head < l.heads
  {
    forall initial: seq<Partial>, before: Vec ::
      |initial| == l.splits && PartsSized(initial, l.dim) && |before| == l.dim ==>
      RightFor(exp, l, gate, kernel, initial, before, token, head)
  }

  /** Beyond the cache two workspaces give two rows, so one of them is wrong. */
  lemma BeyondCache(exp: real -> real, l: Launch, gate: Option<Vec>, kernel: Kernel, before: Vec, token: nat, head: nat)
    returns (initial: seq<Partial>)
    requires Exponential(exp) && l.Valid() && GateFits(gate, l) && Suits(l, kernel) && token < l.tokens
    requires head < l.heads
    requires 0 < l.dim && |before| == l.dim && l.capacity < Reach(l, kernel, token)
    ensures |initial| == l.splits && PartsSized(initial, l.dim)
    ensures !RightFor(exp, l, gate, kernel, initial, before, token, head)
  {
    hide Exponential, GateFits, LoopMerge, Gated, Reach, HeadsPer, LaneShape, ReferenceRow, Stale;
    var x, y := Zero(l.dim), seq(l.dim, d => 1.0);
    assert x[0] != y[0];
    StaleRow(exp, l.splits, l.dim, x);
    StaleRow(exp, l.splits, l.dim, y);
    if RightFor(exp, l, gate, kernel, Stale(l.splits, l.dim, x), before, token, head)
      && RightFor(exp, l, gate, kernel, Stale(l.splits, l.dim, y), before, token, head)
    {
      GateSeparates(exp, l, gate, token, head, x, y);
      assert false;
    }
    initial := if RightFor(exp, l, gate, kernel, Stale(l.splits, l.dim, x), before, token, head)
      then Stale(l.splits, l.dim, y) else Stale(l.splits, l.dim, x);
  }

  /** The two stages reproduce the reference kernel's row from every initial workspace and output
      exactly when the longest causal length of the row's workgroup fits the cache. */
  lemma RowIsRight(exp: real -> real, l: Launch, gate: Option<Vec>, kernel: Kernel, token: nat, head: nat)
    requires Exponential(exp) && l.Valid() && GateFits(gate, l) && Suits(l, kernel) && token < l.tokens
    requires head < l.heads
    requires 0 < l.dim
    ensures RowAlwaysRight(exp, l, gate, kernel, token, head) <==> Reach(l, kernel, token) <= l.capacity
  {
    hide Exponential, GateFits, StagedRow, Reach, HeadsPer, LaneShape, ReferenceRow, RightFor;
    if Reach(l, kernel, token) <= l.capacity {
      forall initial: seq<Partial>, before: Vec
        | |initial| == l.splits && PartsSized(initial, l.dim) && |before| == l.dim
        ensures RightFor(exp, l, gate, kernel, initial, before, token, head)
      {
        FitsIsRight(exp, l, gate, kernel, initial, before, token, head);
      }
    } else {
      var initial := BeyondCache(exp, l, gate, kernel, Zero(l.dim), token, head);
    }
  }

  lemma FitsIsRight(exp: real -> real, l: Launch, gate: Option<Vec>, kernel: Kernel, initial: seq<Partial>,
                    before: Vec, token: nat, head: nat)
    requires Exponential(exp) && l.Valid() && GateFits(gate, l) && Suits(l, kernel) && token < l.tokens
    requires head < l.heads
    requires |initial| == l.splits && PartsSized(initial, l.dim) && |before| == l.dim
    requires Reach(l, kernel, token) <= l.capacity
    ensures RightFor(exp, l, gate, kernel, initial, before, token, head)
  {
    StagedRowFits(exp, l, gate, kernel, initial, before, token, head);
    hide *;
    RightForIs(exp, l, gate, kernel, initial, before, token, head);
  }

  lemma RightForIs(exp: real -> real, l: Launch, gate: Option<Vec>, kernel: Kernel, initial: seq<Partial>, before: Vec,
                   token: nat, head: nat)
    requires Exponential(exp) && l.Valid() && GateFits(gate, l) && Suits(l, kernel) && token < l.tokens
    requires head < l.heads
    requires |initial| == l.splits && PartsSized(initial, l.dim) && |before| == l.dim
    ensures RightFor(exp, l, gate, kernel, initial, before, token, head)
      <==> StagedRow(exp, l, gate, kernel, initial, token, head) == ReferenceRow(exp, l, gate, before, token, head)
  {}

  // ----- the whole launch -----

  /** The last token's workgroup reaches to the end of the launch. */
  lemma LastReach(l: Launch, kernel: Kernel)
    requires l.Valid() && 0 < l.tokens && 0 < TokensPer(kernel)
    ensures Reach(l, kernel, l.tokens - 1) == l.base + l.tokens
  {
    BlockStart(l.tokens - 1, TokensPer(kernel));
  }

  ghost predicate LaunchAlwaysRight(exp: real -> real, l: Launch, gate: Option<Vec>, kernel: Kernel)
    requires Exponential(exp) && l.Valid() && GateFits(gate, l) && Suits(l, kernel)
  {
    forall token, head :: 0 <= token < l.tokens && 0 <= head < l.heads ==>
      RowAlwaysRight(exp, l, gate, kernel, token, head)
  }

  /** The two stages reproduce the whole reference output from every initial workspace and output
      exactly when the launch fits the cache; kernels with one token a workgroup are no exception,
      since stage 2 also writes the rows of tokens that do not fit. */
  lemma LaunchIsRight(exp: real -> real, l: Launch, gate: Option<Vec>, kernel: Kernel)
    requires Exponential(exp) && l.Valid() && GateFits(gate, l) && Suits(l, kernel) && 0 < l.tokens && 0 < l.dim
    ensures LaunchAlwaysRight(exp, l, gate, kernel) <==> l.base + l.tokens <= l.capacity
  {
    hide Exponential, GateFits, RowAlwaysRight, Reach, HeadsPer, LaneShape;
    forall token, head | 0 <= token < l.tokens && 0 <= head < l.heads
      ensures RowAlwaysRight(exp, l, gate, kernel, token, head) <==> Reach(l, kernel, token) <= l.capacity
      ensures Reach(l, kernel, token) <= l.base + l.tokens
    {
      RowIsRight(exp, l, gate, kernel, token, head);
      ReachCovers(l, kernel, token);
    }
    LastReach(l, kernel);
    assert l.capacity < l.base + l.tokens ==> !RowAlwaysRight(exp, l, gate, kernel, l.tokens - 1, 0);
  }

  // ----- a launch on which they differ -----

  /** Two tokens in one block of four and a cache for one of them, on the program's geometry. */
  ghost predicate TightLaunch(l: Launch) {
    && l.Valid() && l.tokens == 2 && l.base == 0 && l.capacity == 1
    && l.heads == 24 && l.kvHeads == 4 && l.dim == 256 && l.splits == 32
  }

  lemma TightLaunchExists() returns (l: Launch)
    ensures TightLaunch(l)
  {
    l := Launch(2, 0, 1, 24, 4, 256, 32, 1.0 / 16.0, Zero(12288), Zero(1024), Zero(1024));
  }

  /** The first token fits, its block does not: for every head some workspace leaves a row that is
      not the reference kernel's, though the one-token kernel would always leave the right one. */
  lemma BlockBeyondCache(exp: real -> real, l: Launch, gate: Option<Vec>, head: nat)
    requires Exponential(exp) && TightLaunch(l) && GateFits(gate, l) && head < l.heads
    ensures Suits(l, QueryTiledKernel(6, 4, 4)) && Suits(l, DirectKernel(6, 4))
    ensures Length(l, 0) <= l.capacity
    ensures !RowAlwaysRight(exp, l, gate, QueryTiledKernel(6, 4, 4), 0, head)
    ensures RowAlwaysRight(exp, l, gate, DirectKernel(6, 4), 0, head)
  {
    hide Exponential, GateFits, RowAlwaysRight;
    assert Pow2(6) == 64 by { Wave64.SixLevels(); }
    RowIsRight(exp, l, gate, QueryTiledKernel(6, 4, 4), 0, head);
    RowIsRight(exp, l, gate, DirectKernel(6, 4), 0, head);
  }
}
