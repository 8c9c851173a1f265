/** Launching a stage-1 kernel over its whole grid, workgroup by workgroup in any order. */
module Launches {
  import opened LinearAlgebra
  import opened Layout
  import opened ExpLog
  import opened Butterfly
  import opened AttentionProblem
  import opened Stage1
  import opened AttentionFlat
  import opened Stage1Direct
  import opened Stage1Tile64
  import opened Stage1HalfWave
  import opened Stage1Streams
  import opened QueryBlocks
  import opened Stage1Queries
  import opened Stage1Flash
  import opened Stage1Group

  /** The stage-1 kernels; a wave or sub-wave has 2^k lanes of `width` elements. */
  datatype Kernel =
    | DirectKernel(k: nat, width: nat)
    | FastKernel(k: nat, width: nat)
    | BlockedKernel
    | UnrolledKernel(k: nat, width: nat, unroll: nat)
    | UltrafastKernel(k: nat, width: nat, unroll: nat)
    | StreamedKernel(k: nat, width: nat, unroll: nat)
    | QueryTiledKernel(k: nat, width: nat, size: nat)
    | RegisterBlockedKernel(k: nat, width: nat, size: nat, columns: nat)
    | MultiQueryKernel(k: nat, width: nat, size: nat, unroll: nat)
    | FlashKernel(size: nat, columns: nat, granules: nat, grain: nat, rounds: nat, quarter: nat)
    | GroupKernel(k: nat, width: nat, unroll: nat, threads: nat, buffering: Buffering)

  /** Half-wave kernels serve two neighbouring heads, workgroup kernels all heads of a kv head. */
  function HeadsPer(l: Launch, kernel: Kernel): nat
    requires 0 < l.kvHeads
  {
    match kernel
    case UnrolledKernel(_, _, _) => 2
    case UltrafastKernel(_, _, _) => 2
    case StreamedKernel(_, _, _) => 2
    case GroupKernel(_, _, _, _, _) => l.heads / l.kvHeads
    case _ => 1
  }

  /** Query-tiled kernels serve a block of tokens. */
  function TokensPer(kernel: Kernel): nat {
    match kernel
    case QueryTiledKernel(_, _, size) => size
    case RegisterBlockedKernel(_, _, size, _) => size
    case MultiQueryKernel(_, _, size, _) => size
    case FlashKernel(size, _, _, _, _, _) => size
    case _ => 1
  }

  /** What the source's constants and launch code guarantee. */
  ghost predicate Suits(l: Launch, kernel: Kernel)
    requires l.Valid()
  {
    && 0 < HeadsPer(l, kernel) && 0 < TokensPer(kernel) && l.heads % HeadsPer(l, kernel) == 0
    && match kernel
       case DirectKernel(k, width) => LaneShape(l, k, width)
       case FastKernel(k, width) => LaneShape(l, k, width)
       case BlockedKernel => true
       case UnrolledKernel(k, width, unroll) => LaneShape(l, k, width) && 0 < unroll
       case UltrafastKernel(k, width, unroll) => LaneShape(l, k, width) && 0 < unroll
       case StreamedKernel(k, width, unroll) => LaneShape(l, k, width) && 0 < unroll
       case QueryTiledKernel(k, width, size) => LaneShape(l, k, width)
       case RegisterBlockedKernel(k, width, size, columns) => LaneShape(l, k, width) && 0 < columns
       case MultiQueryKernel(k, width, size, unroll) => LaneShape(l, k, width) && 0 < unroll
       case FlashKernel(size, columns, granules, grain, rounds, quarter) =>
         0 < columns && 0 < quarter && l.dim
           == Lanes(4, quarter) && Grained(l, granules, grain) && Lanes(columns, granules) == Lanes(rounds, 64)
       case GroupKernel(k, width, unroll, threads, buffering) =>
         LaneShape(l, k, width) && 0 < unroll && Lanes(unroll, Pow2(k)) <= threads && threads
           == Lanes(HeadsPer(l, kernel), Pow2(k))
  }

  /** The longest causal length of the token's workgroup: its splits are cut from it. */
  function Reach(l: Launch, kernel: Kernel, token: nat): nat
    requires l.Valid() && token < l.tokens && 0 < TokensPer(kernel)
  {
    if kernel.FlashKernel? then l.base + l.tokens
    else
      BlockStart(token, TokensPer(kernel));
      Longest(l, SpanAt(l, TokensPer(kernel), token / TokensPer(kernel)))
  }

  lemma BlockStart(token: nat, size: nat)
    requires 0 < size
    ensures token / size * size <= token < token / size * size + size
  {
    assert token == token / size * size + token % size;
  }

  lemma ReachCovers(l: Launch, kernel: Kernel, token: nat)
    requires l.Valid() && token < l.tokens && 0 < TokensPer(kernel)
    ensures Length(l, token) <= Reach(l, kernel, token) <= l.base + l.tokens
  {
    BlockStart(token, TokensPer(kernel));
  }

  /** Written out: a block of tokens reaches as far as its last token, flash as far as the launch. */
  lemma ReachIs(l: Launch, kernel: Kernel, token: nat)
    requires l.Valid() && token < l.tokens && 0 < TokensPer(kernel)
    ensures var size := TokensPer(kernel); var end := token / size * size + size;
      Reach(l, kernel, token)
      == l.base + if kernel.FlashKernel? || l.tokens < end then l.tokens else end
  {
    BlockStart(token, TokensPer(kernel));
  }

  /** Without blocks the reach is the token's own causal length. */
  lemma OwnReach(l: Launch, kernel: Kernel, token: nat)
    requires l.Valid() && token < l.tokens && TokensPer(kernel) == 1 && !kernel.FlashKernel?
    ensures Reach(l, kernel, token) == Length(l, token)
  {}

  /** One workgroup of a launch; `block` is a token or a block of tokens. */
  datatype Item = Item(split: nat, block: nat, group: nat)

  predicate InGrid(l: Launch, kernel: Kernel, item: Item)
    requires l.Valid()
  {
    item.split < l.splits && item.block * TokensPer(kernel) < l.tokens
      && HeadsPer(l, kernel) * item.group + HeadsPer(l, kernel) <= l.heads
  }

  predicate InWorkspace(l: Launch, split: int, token: int, head: int) {
    0 <= split < l.splits && 0 <= token < l.tokens && 0 <= head < l.heads
  }

  /** The workgroup that owns a slot. */
  predicate Covers(l: Launch, kernel: Kernel, item: Item, split: nat, token: nat, head: nat)
    requires l.Valid() && 0 < HeadsPer(l, kernel) && 0 < TokensPer(kernel)
  {
    item.split == split && item.block == token / TokensPer(kernel) && item.group == head / HeadsPer(l, kernel)
  }

  /** The slot holds the exact state of its split, when the workgroup's tokens fit the cache. */
  ghost predicate Finished(exp: real -> real, w: Workspace, l: Launch, kernel: Kernel, split: nat, token: nat,
                           head: nat)
    requires l.Valid() && Fits(w, l) && InWorkspace(l, split, token, head) && 0 < TokensPer(kernel)
    reads w.max, w.sum, w.acc
  {
    ReachCovers(l, kernel, token);
    Reach(l, kernel, token) <= l.capacity ==>
      SlotOf(w, l, split, token, head)
      == ItemState(exp, l, ChunkSize(Reach(l, kernel, token), l.splits), split, token, head)
  }

  /** ... and that is the state of its positions at the source's addresses, for every kernel. */
  lemma FinishedIsComputed(exp: real -> real, w: Workspace, l: Launch, kernel: Kernel, split: nat, token: nat,
                           head: nat)
    requires l.Valid() && Fits(w, l) && InWorkspace(l, split, token, head) && 0 < TokensPer(kernel)
    requires Finished(exp, w, l, kernel, split, token, head) && Reach(l, kernel, token) <= l.capacity
    ensures l.base + token + 1 <= l.capacity
    ensures SlotComputed(exp, w, l, ChunkSize(Reach(l, kernel, token), l.splits), split, token, head)
  {
    hide Reach, ChunkSize, SlotComputed, ItemState, Slot, Fits, SlotIndex;
    ReachCovers(l, kernel, token);
    DoneSlotIsComputed(exp, w, l, ChunkSize(Reach(l, kernel, token), l.splits), split, token, head);
  }

  ghost predicate AllFinished(exp: real -> real, w: Workspace, l: Launch, kernel: Kernel)
    requires l.Valid() && Fits(w, l) && 0 < TokensPer(kernel)
    reads w.max, w.sum, w.acc
  {
    forall split, token, head {:trigger Finished(exp, w, l, kernel, split, token, head)} ::
      InWorkspace(l, split, token, head) ==> Finished(exp, w, l, kernel, split, token, head)
  }

  /** The workgroup stores into the slot: it owns it, and its tokens fit the cache. */
  predicate Stores(l: Launch, kernel: Kernel, item: Item, split: nat, token: nat, head: nat)
    requires l.Valid() && 0 < HeadsPer(l, kernel) && 0 < TokensPer(kernel) && token < l.tokens
  {
    Covers(l, kernel, item, split, token, head) && Reach(l, kernel, token) <= l.capacity
  }

  // ----- one workgroup -----

  /** Kernels with one token and one head a workgroup. */
  method RunSingle(exp: real -> real, l: Launch, w: Workspace, kernel: Kernel, item: Item)
    requires Exponential(exp) && l.Valid() && Fits(w, l) && Suits(l, kernel) && InGrid(l, kernel, item)
    requires kernel.DirectKernel? || kernel.FastKernel? || kernel.BlockedKernel?
    modifies w.max, w.sum, w.acc
    ensures forall split, token, head {:trigger Finished(exp, w, l, kernel, split, token, head)} ::
      InWorkspace(l, split, token, head) && Covers(l, kernel, item, split, token, head) ==>
      Finished(exp, w, l, kernel, split, token, head)
    ensures forall split, token, head {:trigger SlotOf(w, l, split, token, head)} ::
      InWorkspace(l, split, token, head) && !Stores(l, kernel, item, split, token, head) ==>
      SlotOf(w, l, split, token, head) == old(SlotOf(w, l, split, token, head))
  {
    hide Exponential, Fits, LaneShape, Slot, SlotIndex, SlotCount, ItemState, ChunkSize, Reach;
    match kernel {
      case DirectKernel(k, width) => OneWave(exp, l, w, item.group, item.block, item.split, k, width);
      case FastKernel(k, width) => Fast(exp, l, w, item.group, item.block, item.split, k, width);
      case BlockedKernel => Blocked(exp, l, w, item.group, item.block, item.split);
    }
    forall split, token, head {:trigger Finished(exp, w, l, kernel, split, token, head)}
      | InWorkspace(l, split, token, head) && Covers(l, kernel, item, split, token, head)
      ensures Finished(exp, w, l, kernel, split, token, head)
    {
      OwnReach(l, kernel, token);
      SlotInside(l, split, token, head);
      SlotInjective(l, split, token, head, item.split, item.block, item.group);
    }
    forall split, token, head {:trigger SlotOf(w, l, split, token, head)}
      | InWorkspace(l, split, token, head) && !Stores(l, kernel, item, split, token, head)
      ensures SlotOf(w, l, split, token, head) == old(SlotOf(w, l, split, token, head))
    {
      OwnReach(l, kernel, token);
      SlotInside(l, split, token, head);
      SlotInjective(l, split, token, head, item.split, item.block, item.group);
    }
  }

  /** Half-wave kernels. */
  method RunPair(exp: real -> real, l: Launch, w: Workspace, kernel: Kernel, item: Item)
    requires Exponential(exp) && l.Valid() && Fits(w, l) && Suits(l, kernel) && InGrid(l, kernel, item)
    requires kernel.UnrolledKernel? || kernel.UltrafastKernel? || kernel.StreamedKernel?
    modifies w.max, w.sum, w.acc
    ensures forall split, token, head {:trigger Finished(exp, w, l, kernel, split, token, head)} ::
      InWorkspace(l, split, token, head) && Covers(l, kernel, item, split, token, head) ==>
      Finished(exp, w, l, kernel, split, token, head)
    ensures forall split, token, head {:trigger SlotOf(w, l, split, token, head)} ::
      InWorkspace(l, split, token, head) && !Stores(l, kernel, item, split, token, head) ==>
      SlotOf(w, l, split, token, head) == old(SlotOf(w, l, split, token, head))
  {
    hide Exponential, Fits, LaneShape, Slot, SlotIndex, SlotCount, ItemState, ChunkSize, Reach;
    match kernel {
      case UnrolledKernel(k, width, unroll) => Unrolled(exp, l, w, unroll, item.group, item.block, item.split, k,
                                                        width);
      case UltrafastKernel(k, width, unroll) => Ultrafast(exp, l, w, unroll, item.group, item.block, item.split, k,
                                                          width);
      case StreamedKernel(k, width, unroll) => Streamed(exp, l, w, unroll, item.group, item.block, item.split, k,
                                                        width);
    }
    forall split, token, head {:trigger Finished(exp, w, l, kernel, split, token, head)}
      | InWorkspace(l, split, token, head) && Covers(l, kernel, item, split, token, head)
      ensures Finished(exp, w, l, kernel, split, token, head)
    {
      OwnReach(l, kernel, token);
      SlotInside(l, split, token, head);
      SlotInjective(l, split, token, head, item.split, item.block, 2 * item.group);
      SlotInjective(l, split, token, head, item.split, item.block, 2 * item.group + 1);
    }
    forall split, token, head {:trigger SlotOf(w, l, split, token, head)}
      | InWorkspace(l, split, token, head) && !Stores(l, kernel, item, split, token, head)
      ensures SlotOf(w, l, split, token, head) == old(SlotOf(w, l, split, token, head))
    {
      OwnReach(l, kernel, token);
      SlotInside(l, split, token, head);
      SlotInjective(l, split, token, head, item.split, item.block, 2 * item.group);
      SlotInjective(l, split, token, head, item.split, item.block, 2 * item.group + 1);
    }
  }

  lemma SameBlock(token: nat, size: nat, index: nat)
    requires 0 < size
    ensures token / size == index <==> index * size <= token < index * size + size
  {
    BlockStart(token, size);
    ProductOrder(token / size + 1, index, size);
    ProductOrder(index + 1, token / size, size);
  }

  /** A slot of another workgroup is no slot of this block. */
  lemma NotOfBlock(l: Launch, split: nat, token: nat, head: nat, size: nat, item: Item)
    requires l.Valid() && InWorkspace(l, split, token, head) && 0 < size && item.block * size < l.tokens
    requires item.group < l.heads
    requires !(item.split == split && item.block == token / size && item.group == head)
    ensures !OfBlock(l, item.split, item.group, SpanAt(l, size, item.block), SlotIndex(l, split, token, head))
  {
    hide SlotIndex;
    var b := SpanAt(l, size, item.block);
    SameBlock(token, size, item.block);
    forall t {:trigger InBlock(b, t)}
      | InBlock(b, t)
      ensures SlotIndex(l, split, token, head) != SlotIndex(l, item.split, t, item.group) {
      SlotInjective(l, split, token, head, item.split, t, item.group);
    }
  }

  /** The token's own block is the workgroup's. */
  lemma OwnBlock(l: Launch, token: nat, size: nat, index: nat)
    requires l.Valid() && token < l.tokens && 0 < size && index == token / size
    ensures index * size < l.tokens && InBlock(SpanAt(l, size, index), token)
  {
    BlockStart(token, size);
  }

  /** Query-tiled kernels. */
  method RunBlock(exp: real -> real, l: Launch, w: Workspace, kernel: Kernel, item: Item)
    requires Exponential(exp) && l.Valid() && Fits(w, l) && Suits(l, kernel) && InGrid(l, kernel, item)
    requires kernel.QueryTiledKernel? || kernel.RegisterBlockedKernel?
      || kernel.MultiQueryKernel? || kernel.FlashKernel?
    modifies w.max, w.sum, w.acc
    ensures forall split, token, head {:trigger Finished(exp, w, l, kernel, split, token, head)} ::
      InWorkspace(l, split, token, head) && Covers(l, kernel, item, split, token, head) ==>
      Finished(exp, w, l, kernel, split, token, head)
    ensures forall split, token, head {:trigger SlotOf(w, l, split, token, head)} ::
      InWorkspace(l, split, token, head) && !Stores(l, kernel, item, split, token, head) ==>
      SlotOf(w, l, split, token, head) == old(SlotOf(w, l, split, token, head))
  {
    hide Exponential, Fits, LaneShape, Grained, Slot, SlotIndex, SlotCount, ItemState, ChunkSize, OfBlock, SpanAt,
         Lanes;
    var size := TokensPer(kernel);
    match kernel {
      case QueryTiledKernel(k, width, _) => QueryTiled(exp, l, w, size, item.group, item.block, item.split, k, width);
      case RegisterBlockedKernel(k, width, _, columns) => RegisterBlocked(exp, l, w, size, columns, item.group,
                                                                          item.block, item.split, k, width);
      case MultiQueryKernel(k, width, _, unroll) => MultiQuery(exp, l, w, size, unroll, item.group, item.block,
                                                               item.split, k, width);
      case FlashKernel(_, columns, granules, grain, rounds, quarter) =>
        Flash(exp, l, w, size, columns, item.group, item.block, item.split, granules, grain, rounds, quarter);
    }
    forall split, token, head {:trigger Finished(exp, w, l, kernel, split, token, head)}
      | InWorkspace(l, split, token, head) && Covers(l, kernel, item, split, token, head)
      ensures Finished(exp, w, l, kernel, split, token, head)
    {
      SlotInside(l, split, token, head);
      OwnBlock(l, token, size, item.block);
    }
    forall split, token, head {:trigger SlotOf(w, l, split, token, head)}
      | InWorkspace(l, split, token, head) && !Stores(l, kernel, item, split, token, head)
      ensures SlotOf(w, l, split, token, head) == old(SlotOf(w, l, split, token, head))
    {
      SlotInside(l, split, token, head);
      if Covers(l, kernel, item, split, token, head) {
        OwnBlock(l, token, size, item.block);
      } else {
        NotOfBlock(l, split, token, head, size, item);
      }
    }
  }

  /** A slot of another workgroup is no slot of this group. */
  lemma NotOfGroup(g: LdsPipeline.Group, split: nat, token: nat, head: nat, itemSplit: nat, itemToken: nat)
    requires Grouped(g) && 0 < SubWaves(g) && InWorkspace(g.l, split, token, head) && itemToken < g.l.tokens
    requires !(itemSplit == split && itemToken == token && head / SubWaves(g) == g.kv)
    ensures !OfGroup(g, itemSplit, itemToken, SlotIndex(g.l, split, token, head))
  {
    hide SlotIndex;
    SameBlock(head, SubWaves(g), g.kv);
    forall h {:trigger InGroup(g, h)}
      | InGroup(g, h)
      ensures SlotIndex(g.l, split, token, head) != SlotIndex(g.l, itemSplit, itemToken, h) {
      GroupHeadExists(g, h);
      SlotInjective(g.l, split, token, head, itemSplit, itemToken, h);
    }
  }

  lemma GroupHeadExists(g: LdsPipeline.Group, head: nat)
    requires Grouped(g) && InGroup(g, head)
    ensures head < g.l.heads
  {
    HeadOf(g, head - At(g.kv, 0, SubWaves(g)));
  }

  lemma GroupOf(l: Launch, kernel: Kernel, kv: nat)
    requires l.Valid() && Suits(l, kernel) && kernel.GroupKernel? && kv < l.kvHeads
    ensures var g := LdsPipeline.Group(l, kv, Pow2(kernel.k), kernel.width, kernel.unroll, kernel.threads);
      0 < g.lanes && Grouped(g) && SubWaves(g) == HeadsPer(l, kernel)
  {
    Pow2Positive(kernel.k);
    hide Pow2, At;
    var n, lanes := HeadsPer(l, kernel), Pow2(kernel.k);
    WholeSubWaves(n, lanes);
    assert l.heads == n * l.kvHeads;
  }

  lemma WholeSubWaves(n: nat, lanes: nat)
    requires 0 < lanes
    ensures Lanes(n, lanes) / lanes == n && Lanes(n, lanes) % lanes == 0
  {
    var t := Lanes(n, lanes);
    assert t == t / lanes * lanes + t % lanes;
    AtInjective(t / lanes, t % lanes, n, 0, lanes);
  }

  lemma GroupNumber(l: Launch, group: nat)
    requires l.Valid() && (l.heads / l.kvHeads) * group + l.heads / l.kvHeads <= l.heads && 0 < l.heads / l.kvHeads
    ensures group < l.kvHeads
  {
    var n := l.heads / l.kvHeads;
    assert l.heads == n * l.kvHeads;
    if l.kvHeads <= group { ProductOrder(l.kvHeads, group, n); }
  }

  /** Workgroups with rows staged in LDS, whose contents at the start are arbitrary. */
  method RunGroup(exp: real -> real, l: Launch, w: Workspace, kernel: Kernel, item: Item)
    requires Exponential(exp) && l.Valid() && Fits(w, l) && Suits(l, kernel) && InGrid(l, kernel, item)
    requires kernel.GroupKernel?
    modifies w.max, w.sum, w.acc
    ensures forall split, token, head {:trigger Finished(exp, w, l, kernel, split, token, head)} ::
      InWorkspace(l, split, token, head) && Covers(l, kernel, item, split, token, head) ==>
      Finished(exp, w, l, kernel, split, token, head)
    ensures forall split, token, head {:trigger SlotOf(w, l, split, token, head)} ::
      InWorkspace(l, split, token, head) && !Stores(l, kernel, item, split, token, head) ==>
      SlotOf(w, l, split, token, head) == old(SlotOf(w, l, split, token, head))
  {
    hide Exponential, Fits, LaneShape, Slot, SlotIndex, SlotCount, ItemState, ChunkSize, OfGroup, SubWaves, Reach,
         Pow2, Grouped;
    GroupNumber(l, item.group);
    GroupOf(l, kernel, item.group);
    var g := LdsPipeline.Group(l, item.group, Pow2(kernel.k), kernel.width, kernel.unroll, kernel.threads);
    var lds: map<LdsPipeline.Cell, Vec> := *;
    GroupItem(exp, w, g, kernel.buffering, lds, item.block, item.split, kernel.k);
    forall split, token, head {:trigger Finished(exp, w, l, kernel, split, token, head)}
      | InWorkspace(l, split, token, head) && Covers(l, kernel, item, split, token, head)
      ensures Finished(exp, w, l, kernel, split, token, head)
    {
      OwnReach(l, kernel, token);
      SlotInside(l, split, token, head);
      SameBlock(head, SubWaves(g), g.kv);
      assert InGroup(g, head);
    }
    forall split, token, head {:trigger SlotOf(w, l, split, token, head)}
      | InWorkspace(l, split, token, head) && !Stores(l, kernel, item, split, token, head)
      ensures SlotOf(w, l, split, token, head) == old(SlotOf(w, l, split, token, head))
    {
      OwnReach(l, kernel, token);
      SlotInside(l, split, token, head);
      SameBlock(head, SubWaves(g), g.kv);
      if !Covers(l, kernel, item, split, token, head) {
        NotOfGroup(g, split, token, head, item.split, item.block);
      }
    }
  }

  /** One workgroup finishes its own slots, unless its tokens exceed the cache, and writes no other. */
  method RunItem(exp: real -> real, l: Launch, w: Workspace, kernel: Kernel, item: Item)
    requires Exponential(exp) && l.Valid() && Fits(w, l) && Suits(l, kernel) && InGrid(l, kernel, item)
    modifies w.max, w.sum, w.acc
    ensures forall split, token, head {:trigger Finished(exp, w, l, kernel, split, token, head)} ::
      InWorkspace(l, split, token, head) && Covers(l, kernel, item, split, token, head) ==>
      Finished(exp, w, l, kernel, split, token, head)
    ensures forall split, token, head {:trigger SlotOf(w, l, split, token, head)} ::
      InWorkspace(l, split, token, head) && !Stores(l, kernel, item, split, token, head) ==>
      SlotOf(w, l, split, token, head) == old(SlotOf(w, l, split, token, head))
  {
    hide *;
    if kernel.DirectKernel? || kernel.FastKernel? || kernel.BlockedKernel? {
      RunSingle(exp, l, w, kernel, item);
    } else if kernel.UnrolledKernel? || kernel.UltrafastKernel? || kernel.StreamedKernel? {
      RunPair(exp, l, w, kernel, item);
    } else if kernel.GroupKernel? {
      RunGroup(exp, l, w, kernel, item);
    } else {
      RunBlock(exp, l, w, kernel, item);
    }
  }

  // ----- the whole grid -----

  /** Every workgroup of the grid occurs in the order, at least once. */
  ghost predicate WholeGrid(l: Launch, kernel: Kernel, order: seq<Item>)
    requires l.Valid()
  {
    && (forall i :: 0 <= i < |order| ==> InGrid(l, kernel, order[i]))
    && (forall item :: InGrid(l, kernel, item) ==> item in order)
  }

  function OwnItem(l: Launch, kernel: Kernel, split: nat, token: nat, head: nat): Item
    requires l.Valid() && 0 < TokensPer(kernel) && 0 < HeadsPer(l, kernel)
  {
    Item(split, token / TokensPer(kernel), head / HeadsPer(l, kernel))
  }

  lemma GroupFits(heads: nat, head: nat, n: nat)
    requires 0 < n && heads % n == 0 && head < heads
    ensures n * (head / n) + n <= heads
  {
    BlockStart(head, n);
    Quotient(heads, n);
    var q, g := heads / n, head / n;
    if q <= g { ProductOrder(q, g, n); }
    ProductOrder(g + 1, q, n);
  }

  lemma Quotient(heads: nat, n: nat)
    requires 0 < n && heads % n == 0
    ensures heads == heads / n * n
  {}

  /** Every slot belongs to a workgroup of the grid. */
  lemma SomeItemCovers(l: Launch, kernel: Kernel, split: nat, token: nat, head: nat)
    requires l.Valid() && Suits(l, kernel) && InWorkspace(l, split, token, head)
    ensures 0 < TokensPer(kernel) && 0 < HeadsPer(l, kernel)
    ensures var item := OwnItem(l, kernel, split, token, head);
      InGrid(l, kernel, item) && Covers(l, kernel, item, split, token, head)
  {
    hide LaneShape, Grained, Lanes, TokensPer, HeadsPer;
    BlockStart(token, TokensPer(kernel));
    GroupFits(l.heads, head, HeadsPer(l, kernel));
  }

  /** The slots of the first `i` workgroups are finished. */
  ghost predicate FinishedBy(exp: real -> real, w: Workspace, l: Launch, kernel: Kernel, order: seq<Item>, i: nat)
    requires l.Valid() && Fits(w, l) && 0 < HeadsPer(l, kernel) && 0 < TokensPer(kernel) && i <= |order|
    reads w.max, w.sum, w.acc
  {
    forall split, token, head, j {:trigger Finished(exp, w, l, kernel, split, token, head), order[j]} ::
      InWorkspace(l, split, token, head) && 0 <= j < i && Covers(l, kernel, order[j], split, token, head) ==>
      Finished(exp, w, l, kernel, split, token, head)
  }

  /** The next workgroup. */
  method RunNext(exp: real -> real, l: Launch, w: Workspace, kernel: Kernel, order: seq<Item>, i: nat)
    requires Exponential(exp) && l.Valid() && Fits(w, l) && Suits(l, kernel) && i < |order|
    requires InGrid(l, kernel, order[i])
    requires FinishedBy(exp, w, l, kernel, order, i)
    modifies w.max, w.sum, w.acc
    ensures FinishedBy(exp, w, l, kernel, order, i + 1)
    ensures forall split, token, head {:trigger SlotOf(w, l, split, token, head)} ::
      InWorkspace(l, split, token, head) && !Stores(l, kernel, order[i], split, token, head) ==>
      SlotOf(w, l, split, token, head) == old(SlotOf(w, l, split, token, head))
  {
    hide Exponential, Fits, InGrid, Covers, HeadsPer, TokensPer, SlotOf, Reach, ItemState, ChunkSize;
    RunItem(exp, l, w, kernel, order[i]);
    forall split, token, head, j {:trigger Finished(exp, w, l, kernel, split, token, head), order[j]}
      | InWorkspace(l, split, token, head) && 0 <= j < i + 1 && Covers(l, kernel, order[j], split, token, head)
      ensures Finished(exp, w, l, kernel, split, token, head)
    {
      if !Stores(l, kernel, order[i], split, token, head) {
        assert old(Finished(exp, w, l, kernel, split, token, head));
      }
    }
  }

  /** Whatever the order of the workgroups, every slot ends exact if its workgroup's tokens fit the
      cache, and as it was otherwise. */
  method Stage1All(exp: real -> real, l: Launch, w: Workspace, kernel: Kernel, order: seq<Item>)
    requires Exponential(exp) && l.Valid() && Fits(w, l) && Suits(l, kernel) && WholeGrid(l, kernel, order)
    modifies w.max, w.sum, w.acc
    ensures AllFinished(exp, w, l, kernel)
    ensures forall split, token, head {:trigger SlotOf(w, l, split, token, head)} ::
      InWorkspace(l, split, token, head) && l.capacity < Reach(l, kernel, token) ==>
      SlotOf(w, l, split, token, head) == old(SlotOf(w, l, split, token, head))
  {
    hide Exponential, Fits, Finished, InGrid, Covers, HeadsPer, TokensPer, SlotOf, Reach;
    assert 0 < HeadsPer(l, kernel) && 0 < TokensPer(kernel);
    hide Suits;
    for i := 0 to |order|
      invariant FinishedBy(exp, w, l, kernel, order, i)
      invariant forall split, token, head {:trigger SlotOf(w, l, split, token, head)} ::
        InWorkspace(l, split, token, head) && l.capacity < Reach(l, kernel, token) ==>
        SlotOf(w, l, split, token, head) == old(SlotOf(w, l, split, token, head))
    {
      RunNext(exp, l, w, kernel, order, i);
    }
    forall split, token, head {:trigger Finished(exp, w, l, kernel, split, token, head)}
      | InWorkspace(l, split, token, head)
      ensures Finished(exp, w, l, kernel, split, token, head)
    {
      SomeItemCovers(l, kernel, split, token, head);
      var item := OwnItem(l, kernel, split, token, head);
      var j :| 0 <= j < |order| && order[j] == item;
    }
  }
}
