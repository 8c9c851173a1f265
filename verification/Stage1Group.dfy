/** Candidates 1 and 2: a workgroup serves all query heads of one key/value head, one sub-wave a
    head, from rows staged in LDS. */
module Stage1Group {
  import opened Wrappers
  import opened LinearAlgebra
  import opened Layout
  import opened ExpLog
  import opened Softmax
  import opened OnlineSoftmax
  import opened Butterfly
  import opened WaveDot
  import opened AttentionProblem
  import opened Stage1
  import opened BarrierMachine
  import opened LdsPipeline

  datatype Buffering = Single | Double

  function ProgramOf(g: Group, buffering: Buffering, start: nat, end: nat): (p: Program)
    requires g.Valid() && end <= g.l.capacity
  {
    if buffering == Single then SingleBuffered(g, start, end) else PingPong(g, start, end)
  }

  /** The heads of the group: sub-wave q serves head kv * SubWaves + q. */
  function SubWaves(g: Group): nat
    requires 0 < g.lanes
  {
    g.threads / g.lanes
  }

  /** The grouping is hard-coded: as many sub-waves as query heads per key/value head. */
  ghost predicate Grouped(g: Group) {
    g.Valid() && g.l.heads == Lanes(g.l.kvHeads, SubWaves(g))
  }

  lemma HeadOf(g: Group, q: nat)
    requires Grouped(g) && q < SubWaves(g)
    ensures At(g.kv, q, SubWaves(g)) < g.l.heads && KvHead(g.l, At(g.kv, q, SubWaves(g))) == g.kv
  {
    var n := SubWaves(g);
    LaneBound(g.kv, g.l.kvHeads, q, n);
    RatioIs(g.l.kvHeads, n);
    AtDigits(g.kv, q, n);
  }

  lemma RatioIs(kvHeads: nat, n: nat)
    requires 0 < kvHeads
    ensures Lanes(kvHeads, n) / kvHeads == n
  {
    var h := Lanes(kvHeads, n);
    assert h == (h / kvHeads) * kvHeads + h % kvHeads;
    AtInjective(h / kvHeads, h % kvHeads, n, 0, kvHeads);
  }

  // ----- from the lanes' logs back to rows -----

  lemma {:induction false} LoadedAt(g: Group, tid: nat, pos: nat, end: nat, i: nat)
    requires g.Valid() && pos + i < end <= g.l.capacity
    ensures Loaded(g, tid, pos, end)[2 * i] == Some(Piece(g, true, pos + i, tid % g.lanes))
    ensures Loaded(g, tid, pos, end)[2 * i + 1] == Some(Piece(g, false, pos + i, tid % g.lanes))
    decreases end
  {
    hide Piece;
    if pos + i < end - 1 { LoadedAt(g, tid, pos, end - 1, i); }
  }

  /** Every thread has loaded its lane of [start, end). */
  ghost predicate Delivered(g: Group, logs: seq<seq<Option<Vec>>>, start: nat, end: nat)
    requires g.Valid() && start <= end <= g.l.capacity
  {
    |logs| == g.threads && forall tid :: 0 <= tid < g.threads ==> logs[tid] == Loaded(g, tid, start, end)
  }

  lemma PieceExtends(g: Group, key: bool, pos: nat, lane: nat)
    requires g.Valid() && pos < g.l.capacity && lane < g.lanes
    ensures At(lane, 0, g.width) <= g.l.dim && At(lane + 1, 0, g.width) <= g.l.dim
    ensures CachedRow(g.l, key, g.kv, pos)[..At(lane, 0, g.width)] + Piece(g, key, pos, lane)
         == CachedRow(g.l, key, g.kv, pos)[..At(lane + 1, 0, g.width)]
  {
    LaneBound(lane, g.lanes, 0, g.width);
    NextLane(lane, g.width);
    hide At, KeyRow, ValueRow;
  }

  lemma NextLane(lane: nat, width: nat)
    ensures At(lane + 1, 0, width) == At(lane, 0, width) + width
  {}

  lemma ThreadOf(g: Group, q: nat, lane: nat)
    requires g.Valid() && q < SubWaves(g) && lane < g.lanes
    ensures At(q, lane, g.lanes) < g.threads && At(q, lane, g.lanes) % g.lanes == lane
  {
    LaneBound(q, SubWaves(g), lane, g.lanes);
    AtDigits(q, lane, g.lanes);
  }

  /** Sub-wave q's lanes together hold the row. */
  method GatherRow(g: Group, logs: seq<seq<Option<Vec>>>, q: nat, key: bool, ghost start: nat, ghost end: nat, i: nat)
    returns (row: Vec)
    requires g.Valid() && start + i < end <= g.l.capacity && q < SubWaves(g) && Delivered(g, logs, start, end)
    ensures row == CachedRow(g.l, key, g.kv, start + i)
  {
    hide At, Piece, CachedRow, Loaded, SubWaves;
    row := [];
    RowEnds(g);
    for lane := 0 to g.lanes
      invariant At(lane, 0, g.width) <= g.l.dim && row == CachedRow(g.l, key, g.kv, start + i)[..At(lane, 0, g.width)]
    {
      ThreadOf(g, q, lane);
      var tid := At(q, lane, g.lanes);
      LoadedAt(g, tid, start, end, i);
      PieceExtends(g, key, start + i, lane);
      row := row + logs[tid][if key then 2 * i else 2 * i + 1].value;
    }
  }

  lemma RowEnds(g: Group)
    requires g.Valid()
    ensures At(0, 0, g.width) == 0 && At(g.lanes, 0, g.width) == g.l.dim
  {}

  /** The score of one gathered key row. */
  method GatheredScore(g: Group, token: nat, head: nat, query: Vec, key: Vec, ghost pos: nat, k: nat)
    returns (score: real)
    requires g.Valid() && g.lanes == Pow2(k) && token < g.l.tokens && head < g.l.heads && KvHead(g.l, head) == g.kv
    requires pos < g.l.capacity
    requires query == QueryRow(g.l, token, head) && key == CachedRow(g.l, true, g.kv, pos)
    ensures score == Score(g.l, token, head, pos)
  {
    hide Pow2, KeyRow, ValueRow, QueryRow, KvHead, Dot, Lanes;
    var dots := WaveDots([query], [key], k, g.width);
    assert dots[0] == Dot([query][0], [key][0], |[query][0]|);
    score := dots[0] * g.l.scale;
  }

  /** One sub-wave's walk over what it has loaded. */
  method SubWaveState(exp: real -> real, g: Group, logs: seq<seq<Option<Vec>>>, token: nat, q: nat, head: nat,
                      start: nat, end: nat, k: nat)
    returns (state: Partial)
    requires Exponential(exp) && g.Valid() && g.lanes == Pow2(k) && token < g.l.tokens && q < SubWaves(g)
    requires start <= end <= g.l.capacity && Delivered(g, logs, start, end)
    requires head < g.l.heads && KvHead(g.l, head) == g.kv
    ensures state == Exact(exp, g.l, token, head, start, end)
  {
    hide Exponential, Delivered, Pow2, KeyRow, ValueRow, QueryRow, KvHead, Exact, Push, Score, SubWaves;
    var l := g.l;
    ExactNone(exp, l, token, head, start);
    state := Empty(l.dim);
    var query := QueryRow(l, token, head);
    for pos := start to end
      invariant state == Exact(exp, l, token, head, start, pos)
    {
      var key := GatherRow(g, logs, q, true, start, end, pos - start);
      var value := GatherRow(g, logs, q, false, start, end, pos - start);
      var score := GatheredScore(g, token, head, query, key, pos, k);
      ExactNext(exp, l, token, head, start, pos);
      state := OnlineUpdate(exp, state, score, value);
    }
  }

  // ----- the workgroup -----

  predicate InGroup(g: Group, head: int)
    requires 0 < g.lanes
  {
    At(g.kv, 0, SubWaves(g)) <= head < At(g.kv, 0, SubWaves(g)) + SubWaves(g)
  }

  ghost predicate OfGroup(g: Group, split: nat, token: nat, slot: nat)
    requires 0 < g.lanes
  {
    exists head {:trigger InGroup(g, head)} :: InGroup(g, head) && slot == SlotIndex(g.l, split, token, head)
  }

  /** Every head of the group below `limit` has its slot filled. */
  ghost predicate GroupDone(exp: real -> real, w: Workspace, g: Group, chunk: nat, split: nat, token: nat, limit: nat)
    requires Grouped(g) && Fits(w, g.l) && split < g.l.splits && token < g.l.tokens
    requires Length(g.l, token) <= g.l.capacity
    reads w.max, w.sum, w.acc
  {
    forall head {:trigger InGroup(g, head)} :: InGroup(g, head) && head < limit ==>
      head < g.l.heads && ItemDone(exp, w, g.l, chunk, split, token, head)
  }

  method StoreHead(exp: real -> real, g: Group, w: Workspace, chunk: nat, split: nat, token: nat, q: nat,
                   state: Partial)
    requires Grouped(g) && Fits(w, g.l) && split < g.l.splits && token < g.l.tokens
    requires Length(g.l, token) <= g.l.capacity && q < SubWaves(g)
    requires At(g.kv, q, SubWaves(g)) < g.l.heads
    requires state == ItemState(exp, g.l, chunk, split, token, At(g.kv, q, SubWaves(g)))
    requires GroupDone(exp, w, g, chunk, split, token, At(g.kv, 0, SubWaves(g)) + q)
    modifies w.max, w.sum, w.acc
    ensures GroupDone(exp, w, g, chunk, split, token, At(g.kv, 0, SubWaves(g)) + q + 1)
    ensures forall o :: 0 <= o < SlotCount(g.l) && !OfGroup(g, split, token, o) ==>
      Slot(w, g.l, o) == old(Slot(w, g.l, o))
  {
    hide Slot, ItemState, SlotCount, SlotIndex, Fits, SubWaves;
    var own := At(g.kv, q, SubWaves(g));
    assert InGroup(g, own);
    FinishItem(exp, g.l, w, chunk, split, token, own, state);
    forall head {:trigger InGroup(g, head)} | InGroup(g, head) && head < own + 1
      ensures head < g.l.heads && ItemDone(exp, w, g.l, chunk, split, token, head)
    {
      if head < own {
        SlotInside(g.l, split, token, head);
        SlotInjective(g.l, split, token, head, split, token, own);
      }
    }
  }

  /** Whatever the interleaving of the threads between barriers, and whatever LDS held before, the
      workgroup fills the slots of all its heads exactly. */
  method GroupItem(exp: real -> real, w: Workspace, g: Group, buffering: Buffering, lds: map<Cell, Vec>, token: nat,
                   split: nat, k: nat)
    requires Exponential(exp) && Grouped(g) && Fits(w, g.l) && g.lanes == Pow2(k) && token < g.l.tokens
    requires split < g.l.splits
    modifies w.max, w.sum, w.acc
    ensures Length(g.l, token) <= g.l.capacity ==>
      GroupDone(exp, w, g, ChunkSize(Length(g.l, token), g.l.splits), split, token, g.l.heads)
    ensures forall o ::
      0 <= o < SlotCount(g.l) && (!OfGroup(g, split, token, o) || g.l.capacity < Length(g.l, token)) ==>
      Slot(w, g.l, o) == old(Slot(w, g.l, o))
  {
    hide Exponential, Fits, Slot, Exact, ItemState, SlotIndex, SlotCount, ChunkSize, Cut, Delivered, At, Pow2, KvHead,
         ProgramOf, OfGroup, GroupDone, SubWaves;
    var l, length := g.l, Length(g.l, token);
    if length > l.capacity { return; }
    var chunk := ChunkSize(length, l.splits);
    var start := split * chunk;
    var end := if start + chunk < length then start + chunk else length;
    var logs: seq<seq<Option<Vec>>> := [];
    if start < length {
      SplitBounds(chunk, split, length);
      logs := RunProgram(g, buffering, lds, start, end);
    }
    var n := SubWaves(g);
    GroupStarts(exp, w, g, chunk, split, token);
    for q := 0 to n
      invariant GroupDone(exp, w, g, chunk, split, token, At(g.kv, 0, n) + q)
      invariant forall o :: 0 <= o < SlotCount(l) && !OfGroup(g, split, token, o) ==>
        Slot(w, l, o) == old(Slot(w, l, o))
    {
      HeadOf(g, q);
      ItemRange(exp, l, chunk, split, token, At(g.kv, q, n));
      var state := Empty(l.dim);
      if start < length {
        state := SubWaveState(exp, g, logs, token, q, At(g.kv, q, n), start, end, k);
      }
      StoreHead(exp, g, w, chunk, split, token, q, state);
    }
    GroupEnds(exp, w, g, chunk, split, token);
  }

  /** The staging of one split. */
  method RunProgram(g: Group, buffering: Buffering, lds: map<Cell, Vec>, start: nat, end: nat)
    returns (logs: seq<seq<Option<Vec>>>)
    requires g.Valid() && start <= end <= g.l.capacity
    ensures Delivered(g, logs, start, end)
  {
    hide SingleBuffered, PingPong, AllRaceFree, Shaped, Loaded, Reaches;
    SingleBufferedIsSound(g, start, end);
    PingPongIsSound(g, start, end);
    ghost var schedule;
    var m;
    m, schedule := Execute(ProgramOf(g, buffering, start, end), g.threads, lds);
    if buffering == Single {
      SingleBufferedDelivers(g, lds, schedule, m, start, end);
    } else {
      PingPongDelivers(g, lds, schedule, m, start, end);
    }
    logs := m.logs;
  }

  lemma GroupStarts(exp: real -> real, w: Workspace, g: Group, chunk: nat, split: nat, token: nat)
    requires Grouped(g) && Fits(w, g.l) && split < g.l.splits && token < g.l.tokens
    requires Length(g.l, token) <= g.l.capacity
    ensures GroupDone(exp, w, g, chunk, split, token, At(g.kv, 0, SubWaves(g)) + 0)
  {
    hide At, SubWaves, Fits;
  }

  lemma GroupEnds(exp: real -> real, w: Workspace, g: Group, chunk: nat, split: nat, token: nat)
    requires Grouped(g) && Fits(w, g.l) && split < g.l.splits && token < g.l.tokens
    requires Length(g.l, token) <= g.l.capacity
    requires GroupDone(exp, w, g, chunk, split, token, At(g.kv, 0, SubWaves(g)) + SubWaves(g))
    ensures GroupDone(exp, w, g, chunk, split, token, g.l.heads)
  {
    hide At, SubWaves, Fits, ItemDone;
    forall head {:trigger InGroup(g, head)} | InGroup(g, head) && head < g.l.heads
      ensures head < g.l.heads && ItemDone(exp, w, g.l, chunk, split, token, head)
    {}
  }
}
