/** The shared-memory kernels of v2_0017_hierarchical_gqa_bakeoff.cpp as barrier programs: one
    workgroup of several sub-waves stages rows of the cache in LDS and loads them back, with one
    buffer or with two. */
module LdsPipeline {
  import opened Wrappers
  import opened LinearAlgebra
  import opened Layout
  import opened Butterfly
  import opened AttentionProblem
  import opened BarrierMachine

  /** One 16-byte cell of lds_k or lds_v. */
  datatype Cell = Cell(key: bool, buffer: nat, row: nat, lane: nat)

  type Program = seq<Phase<Cell, Vec>>

  /** A workgroup: `threads` threads in sub-waves of `lanes` lanes, each lane `width` elements. */
  datatype Group = Group(l: Launch, kv: nat, lanes: nat, width: nat, unroll: nat, threads: nat)
  {
    /** The loading threads tid < unroll * lanes exist, and sub-waves are whole. */
    ghost predicate Valid() {
      && l.Valid() && kv < l.kvHeads && 0 < lanes && 0 < width && l.dim == Lanes(lanes, width)
      && 0 < unroll && Lanes(unroll, lanes) <= threads && threads % lanes == 0
    }
  }

  /** One lane's elements of a cached row. */
  function Piece(g: Group, key: bool, pos: nat, lane: nat): (v: Vec)
    requires g.Valid() && pos < g.l.capacity && lane < g.lanes
  {
    LaneBound(lane, g.lanes, 0, g.width);
    var row := CachedRow(g.l, key, g.kv, pos);
    row[At(lane, 0, g.width)..At(lane, 0, g.width) + g.width]
  }

  lemma LoaderRow(tid: nat, rows: nat, lanes: nat)
    requires 0 < lanes && tid < Lanes(rows, lanes)
    ensures tid / lanes < rows
  {
    ProductOrder(rows, tid / lanes, lanes);
  }

  // ----- what one thread does in a phase -----

  /** Thread `tid` copies its cell of rows [pos, pos + rows) into a buffer. */
  function FillOps(g: Group, tid: nat, buffer: nat, pos: nat, rows: nat): (ops: Ops<Cell, Vec>)
    requires g.Valid() && (rows == 0 || pos + rows <= g.l.capacity)
  {
    if tid < Lanes(rows, g.lanes) then
      LoaderRow(tid, rows, g.lanes);
      [Store(Cell(true, buffer, tid / g.lanes, tid % g.lanes), Piece(g, true, pos + tid / g.lanes, tid % g.lanes)),
       Store(Cell(false, buffer, tid / g.lanes, tid % g.lanes), Piece(g, false, pos + tid / g.lanes, tid % g.lanes))]
    else []
  }

  /** Thread `tid` loads its lane of the first `rows` rows, key before value. */
  function ReadOps(g: Group, tid: nat, buffer: nat, rows: nat): (ops: Ops<Cell, Vec>)
    requires g.Valid()
    ensures |ops| == 2 * rows
  {
    if rows == 0 then []
    else ReadOps(g, tid, buffer, rows - 1)
         + [Load(Cell(true, buffer, rows - 1, tid % g.lanes)), Load(Cell(false, buffer, rows - 1, tid % g.lanes))]
  }

  /** Between two barriers: read `readRows` rows of one buffer, then fill another. */
  function Work(g: Group, readBuffer: nat, readRows: nat, fillBuffer: nat, pos: nat,
                fillRows: nat): (phase: Phase<Cell, Vec>)
    requires g.Valid() && (fillRows == 0 || pos + fillRows <= g.l.capacity)
    ensures |phase| == g.threads
  {
    seq(g.threads, tid requires 0 <= tid < g.threads =>
      ReadOps(g, tid, readBuffer, readRows) + FillOps(g, tid, fillBuffer, pos, fillRows))
  }

  lemma {:induction false} ReadOpsOnlyRead(g: Group, tid: nat, buffer: nat, rows: nat)
    requires g.Valid()
    ensures forall i :: 0 <= i < 2 * rows ==>
      var op := ReadOps(g, tid, buffer, rows)[i]; op.Load? && op.cell.buffer == buffer
  {
    if rows != 0 { ReadOpsOnlyRead(g, tid, buffer, rows - 1); }
  }

  /** What a thread may touch: loads in the read buffer, stores in its own cells of the other. */
  lemma WorkOps(g: Group, tid: nat, readBuffer: nat, readRows: nat, fillBuffer: nat, pos: nat, fillRows: nat)
    requires g.Valid() && (fillRows == 0 || pos + fillRows <= g.l.capacity) && tid < g.threads
    ensures forall i :: 0 <= i < |Work(g, readBuffer, readRows, fillBuffer, pos, fillRows)[tid]| ==>
      var op := Work(g, readBuffer, readRows, fillBuffer, pos, fillRows)[tid][i];
      && (op.Load? ==> op.cell.buffer == readBuffer && 0 < readRows)
      && (op.Store? ==> op.cell.buffer == fillBuffer && 0 < fillRows && tid == At(op.cell.row, op.cell.lane, g.lanes))
  {
    hide Piece;
    ReadOpsOnlyRead(g, tid, readBuffer, readRows);
    var ops, loads, fills := Work(g, readBuffer, readRows, fillBuffer, pos, fillRows)[tid],
        ReadOps(g, tid, readBuffer, readRows), FillOps(g, tid, fillBuffer, pos, fillRows);
    assert ops == loads + fills;
    NoRows(tid, g.lanes);
    QuotientAddress(tid, g.lanes);
    forall i | 0 <= i < |ops|
      ensures ops[i].Load? ==> ops[i].cell.buffer == readBuffer && 0 < readRows
      ensures ops[i].Store? ==>
        ops[i].cell.buffer == fillBuffer && 0 < fillRows && tid == At(ops[i].cell.row, ops[i].cell.lane, g.lanes)
    {
      if i < |loads| { assert ops[i] == loads[i]; } else { assert ops[i] == fills[i - |loads|]; }
    }
  }

  lemma NoRows(tid: nat, lanes: nat)
    ensures !(tid < Lanes(0, lanes))
  {}

  lemma QuotientAddress(tid: nat, lanes: nat)
    requires 0 < lanes
    ensures tid == At(tid / lanes, tid % lanes, lanes)
  {}

  /** No thread touches a cell another one writes, as long as the two buffers differ. */
  lemma WorkIsRaceFree(g: Group, readBuffer: nat, readRows: nat, fillBuffer: nat, pos: nat, fillRows: nat)
    requires g.Valid() && (fillRows == 0 || pos + fillRows <= g.l.capacity)
    requires readRows == 0 || fillRows == 0 || readBuffer != fillBuffer
    ensures RaceFree(Work(g, readBuffer, readRows, fillBuffer, pos, fillRows))
  {
    var phase := Work(g, readBuffer, readRows, fillBuffer, pos, fillRows);
    forall t, u, cell | 0 <= t < |phase| && 0 <= u < |phase| && t != u && Writes(phase[t], cell)
      ensures !Touches(phase[u], cell)
    {
      hide Work;
      WorkOps(g, t, readBuffer, readRows, fillBuffer, pos, fillRows);
      WorkOps(g, u, readBuffer, readRows, fillBuffer, pos, fillRows);
      var i :| 0 <= i < |phase[t]| && phase[t][i].Store? && phase[t][i].cell == cell;
    }
  }

  // ----- what a phase leaves and shows -----

  /** A buffer holds keys and values of exactly the positions [pos, pos + rows). */
  ghost predicate Holds(g: Group, memory: map<Cell, Vec>, buffer: nat, pos: nat, rows: nat)
    requires g.Valid() && pos + rows <= g.l.capacity
  {
    forall key, row, lane {:trigger Cell(key, buffer, row, lane)} :: 0 <= row < rows && 0 <= lane < g.lanes ==>
      Get(memory, Cell(key, buffer, row, lane)) == Some(Piece(g, key, pos + row, lane))
  }

  lemma FillIsLast(g: Group, tid: nat, row: nat, lane: nat, readBuffer: nat, readRows: nat, fillBuffer: nat, pos: nat,
                   fillRows: nat, key: bool, before: Option<Vec>)
    requires g.Valid() && pos + fillRows <= g.l.capacity && tid < g.threads && tid < Lanes(fillRows, g.lanes)
    requires row == tid / g.lanes < fillRows && lane == tid % g.lanes
    ensures var ops := Work(g, readBuffer, readRows, fillBuffer, pos, fillRows)[tid];
      LastStore(ops, |ops|, Cell(key, fillBuffer, row, lane), before) == Some(Piece(g, key, pos + row, lane))
  {
    hide Piece, Lanes, ReadOps, LastStore;
    var fills := FillOps(g, tid, fillBuffer, pos, fillRows);
    assert Work(g, readBuffer, readRows, fillBuffer, pos, fillRows)[tid]
      == ReadOps(g, tid, readBuffer, readRows) + fills;
    TwoStores(ReadOps(g, tid, readBuffer, readRows), fills, fillBuffer, row, lane, Piece(g, true, pos + row, lane),
              Piece(g, false, pos + row, lane), key, before);
  }

  lemma TwoStores(ops: Ops<Cell, Vec>, fills: Ops<Cell, Vec>, buffer: nat, row: nat, lane: nat, k: Vec, v: Vec,
                  key: bool, before: Option<Vec>)
    requires fills == [Store(Cell(true, buffer, row, lane), k), Store(Cell(false, buffer, row, lane), v)]
    ensures LastStore(ops + fills, |ops + fills|, Cell(key, buffer, row, lane), before) == Some(if key then k else v)
  {
    var all, n, cell := ops + fills, |ops|, Cell(key, buffer, row, lane);
    assert all[n] == fills[0] && all[n + 1] == fills[1];
    if key {
      assert LastStore(all, n + 2, cell, before) == LastStore(all, n + 1, cell, before);
    }
  }

  /** After a phase that fills a buffer, the buffer holds the rows. */
  lemma WorkFills(g: Group, memory: map<Cell, Vec>, readBuffer: nat, readRows: nat, fillBuffer: nat, pos: nat,
                  fillRows: nat)
    requires g.Valid() && pos + fillRows <= g.l.capacity && fillRows <= g.unroll
    requires readRows == 0 || fillRows == 0 || readBuffer != fillBuffer
    ensures var phase := Work(g, readBuffer, readRows, fillBuffer, pos, fillRows);
      Holds(g, PhaseEnd(memory, phase, |phase|), fillBuffer, pos, fillRows)
  {
    var phase := Work(g, readBuffer, readRows, fillBuffer, pos, fillRows);
    ProductOrder(fillRows, g.unroll, g.lanes);
    forall key, row, lane {:trigger Cell(key, fillBuffer, row, lane)} | 0 <= row < fillRows && 0 <= lane < g.lanes
      ensures Get(PhaseEnd(memory, phase, |phase|), Cell(key, fillBuffer, row, lane))
           == Some(Piece(g, key, pos + row, lane))
    {
      var tid, cell := At(row, lane, g.lanes), Cell(key, fillBuffer, row, lane);
      LaneBound(row, fillRows, lane, g.lanes);
      AtDigits(row, lane, g.lanes);
      FillerExists(g, fillRows, tid);
      hide Work, Piece;
      forall u | 0 <= u < |phase| && u != tid ensures !Writes(phase[u], cell) {
        WorkOps(g, u, readBuffer, readRows, fillBuffer, pos, fillRows);
      }
      PhaseEndWritten(memory, phase, |phase|, tid, cell);
      FillIsLast(g, tid, row, lane, readBuffer, readRows, fillBuffer, pos, fillRows, key, Get(memory, cell));
    }
  }

  lemma FillerExists(g: Group, fillRows: nat, tid: nat)
    requires g.Valid() && fillRows <= g.unroll && tid < Lanes(fillRows, g.lanes)
    ensures tid < g.threads
  {
    ProductOrder(fillRows, g.unroll, g.lanes);
  }

  /** What a thread must have loaded after the positions [pos, end). */
  function Loaded(g: Group, tid: nat, pos: nat, end: nat): (log: seq<Option<Vec>>)
    requires g.Valid() && pos <= end <= g.l.capacity
    ensures |log| == 2 * (end - pos)
    decreases end
  {
    if pos == end then []
    else Loaded(g, tid, pos, end - 1)
         + [Some(Piece(g, true, end - 1, tid % g.lanes)), Some(Piece(g, false, end - 1, tid % g.lanes))]
  }

  lemma {:induction false} LoadedJoins(g: Group, tid: nat, pos: nat, mid: nat, end: nat)
    requires g.Valid() && pos <= mid <= end <= g.l.capacity
    ensures Loaded(g, tid, pos, end) == Loaded(g, tid, pos, mid) + Loaded(g, tid, mid, end)
    decreases end
  {
    hide Piece;
    if mid < end { LoadedJoins(g, tid, pos, mid, end - 1); }
  }

  lemma {:induction false} OwnLogPrefix(memory: map<Cell, Vec>, ops: Ops<Cell, Vec>, more: Ops<Cell, Vec>, n: nat)
    requires n <= |ops|
    ensures OwnLog(memory, ops + more, n) == OwnLog(memory, ops, n)
  {
    if n != 0 {
      OwnLogPrefix(memory, ops, more, n - 1);
      assert (ops + more)[n - 1] == ops[n - 1];
      LastStorePrefix(ops, more, n - 1, ops[n - 1].cell, Get(memory, ops[n - 1].cell));
    }
  }

  lemma {:induction false} LastStorePrefix(ops: Ops<Cell, Vec>, more: Ops<Cell, Vec>, n: nat, cell: Cell,
                                           before: Option<Vec>)
    requires n <= |ops|
    ensures LastStore(ops + more, n, cell, before) == LastStore(ops, n, cell, before)
  {
    if n != 0 { LastStorePrefix(ops, more, n - 1, cell, before); }
  }

  lemma {:induction false} StoresLogNothing(memory: map<Cell, Vec>, ops: Ops<Cell, Vec>, n: nat, m: nat)
    requires n <= m <= |ops| && forall i :: n <= i < m ==> ops[i].Store?
    ensures OwnLog(memory, ops, m) == OwnLog(memory, ops, n)
  {
    if n < m { StoresLogNothing(memory, ops, n, m - 1); }
  }

  lemma {:induction false} LoadsStoreNothing(ops: Ops<Cell, Vec>, n: nat, cell: Cell, before: Option<Vec>)
    requires n <= |ops| && forall i :: 0 <= i < n ==> ops[i].Load?
    ensures LastStore(ops, n, cell, before) == before
  {
    if n != 0 { LoadsStoreNothing(ops, n - 1, cell, before); }
  }

  lemma TwoLoads(memory: map<Cell, Vec>, before: Ops<Cell, Vec>, a: Cell, b: Cell)
    requires forall i :: 0 <= i < |before| ==> before[i].Load?
    ensures OwnLog(memory, before + [Load(a), Load(b)], |before| + 2)
         == OwnLog(memory, before, |before|) + [Get(memory, a), Get(memory, b)]
  {
    hide Get;
    var last, n := [Load(a), Load(b)], |before|;
    var ops := before + last;
    OwnLogPrefix(memory, before, last, n);
    assert ops[n] == last[0] && ops[n + 1] == last[1];
    LoadsStoreNothing(ops, n, a, Get(memory, a));
    LoadsStoreNothing(ops, n + 1, b, Get(memory, b));
    assert OwnLog(memory, ops, n + 1) == OwnLog(memory, ops, n) + [Get(memory, a)];
    assert OwnLog(memory, ops, n + 2) == OwnLog(memory, ops, n + 1) + [Get(memory, b)];
  }

  lemma HoldsLast(g: Group, memory: map<Cell, Vec>, buffer: nat, pos: nat, rows: nat, lane: nat)
    requires g.Valid() && 0 < rows && pos + rows <= g.l.capacity && lane < g.lanes
    requires Holds(g, memory, buffer, pos, rows)
    ensures Holds(g, memory, buffer, pos, rows - 1)
    ensures Get(memory, Cell(true, buffer, rows - 1, lane)) == Some(Piece(g, true, pos + (rows - 1), lane))
    ensures Get(memory, Cell(false, buffer, rows - 1, lane)) == Some(Piece(g, false, pos + (rows - 1), lane))
  {
    hide Piece, Get;
  }

  lemma LoadedLast(g: Group, tid: nat, pos: nat, end: nat)
    requires g.Valid() && pos < end <= g.l.capacity
    ensures Loaded(g, tid, pos, end)
         == Loaded(g, tid, pos, end - 1)
            + [Some(Piece(g, true, end - 1, tid % g.lanes)), Some(Piece(g, false, end - 1, tid % g.lanes))]
  {
    hide Piece;
  }

  function LaneOf(g: Group, tid: nat): (lane: nat)
    requires g.Valid()
    ensures lane == tid % g.lanes < g.lanes
  {
    tid % g.lanes
  }

  lemma ReadOpsLast(g: Group, tid: nat, buffer: nat, rows: nat)
    requires g.Valid() && 0 < rows
    ensures ReadOps(g, tid, buffer, rows)
         == ReadOps(g, tid, buffer, rows - 1)
            + [Load(Cell(true, buffer, rows - 1, tid % g.lanes)), Load(Cell(false, buffer, rows - 1, tid % g.lanes))]
  {}

  /** Reading a buffer that holds [pos, pos + rows) loads exactly those rows, in order. */
  lemma {:induction false} ReadsLoad(g: Group, memory: map<Cell, Vec>, tid: nat, buffer: nat, pos: nat, rows: nat)
    requires g.Valid() && pos + rows <= g.l.capacity && Holds(g, memory, buffer, pos, rows)
    ensures OwnLog(memory, ReadOps(g, tid, buffer, rows), 2 * rows) == Loaded(g, tid, pos, pos + rows)
  {
    if rows == 0 {
      LoadedNothing(g, tid, pos);
    } else {
      var lane := LaneOf(g, tid);
      ReadOpsLast(g, tid, buffer, rows);
      hide *;
      HoldsLast(g, memory, buffer, pos, rows, lane);
      ReadsLoad(g, memory, tid, buffer, pos, rows - 1);
      ReadOpsOnlyRead(g, tid, buffer, rows - 1);
      TwoLoads(memory, ReadOps(g, tid, buffer, rows - 1), Cell(true, buffer, rows - 1, lane),
               Cell(false, buffer, rows - 1, lane));
      LoadedLast(g, tid, pos, pos + rows);
    }
  }

  /** One phase's loads. */
  lemma WorkLoads(g: Group, memory: map<Cell, Vec>, tid: nat, readBuffer: nat, at: nat, readRows: nat, fillBuffer: nat,
                  pos: nat, fillRows: nat)
    requires g.Valid() && (fillRows == 0 || pos + fillRows <= g.l.capacity) && at + readRows <= g.l.capacity
    requires tid < g.threads
    requires Holds(g, memory, readBuffer, at, readRows)
    ensures var ops := Work(g, readBuffer, readRows, fillBuffer, pos, fillRows)[tid];
      OwnLog(memory, ops, |ops|) == Loaded(g, tid, at, at + readRows)
  {
    hide Piece, Holds;
    var loads, fills := ReadOps(g, tid, readBuffer, readRows), FillOps(g, tid, fillBuffer, pos, fillRows);
    var ops := Work(g, readBuffer, readRows, fillBuffer, pos, fillRows)[tid];
    assert ops == loads + fills;
    ReadsLoad(g, memory, tid, readBuffer, at, readRows);
    OwnLogPrefix(memory, loads, fills, |loads|);
    StoresLogNothing(memory, ops, |loads|, |ops|);
  }

  lemma HoldsNothing(g: Group, memory: map<Cell, Vec>, buffer: nat, pos: nat)
    requires g.Valid() && pos <= g.l.capacity
    ensures Holds(g, memory, buffer, pos, 0)
  {}

  // ----- the programs -----

  /** Positions one at a time through row 0 of buffer 0: fill, barrier, read, barrier. */
  function Remainder(g: Group, pos: nat, end: nat): (p: Program)
    requires g.Valid() && end <= g.l.capacity
    decreases end - pos
  {
    if pos >= end then []
    else [Work(g, 0, 0, 0, pos, 1)] + ([Work(g, 0, 1, 0, pos, 0)] + Remainder(g, pos + 1, end))
  }

  /** Candidate 1: fill, barrier, read, barrier. */
  function SingleBuffered(g: Group, pos: nat, end: nat): (p: Program)
    requires g.Valid() && end <= g.l.capacity
    decreases end - pos
  {
    if pos + g.unroll <= end then
      [Work(g, 0, 0, 0, pos, g.unroll)] + ([Work(g, 0, g.unroll, 0, pos, 0)] + SingleBuffered(g, pos + g.unroll, end))
    else Remainder(g, pos, end)
  }

  /** The main loop of candidate 2: read the current buffer while the next one is filled. */
  function PingPongLoop(g: Group, pos: nat, end: nat, buffer: nat): (p: Program)
    requires g.Valid() && end <= g.l.capacity && buffer < 2
    decreases end - pos
  {
    if pos + g.unroll <= end then
      [Work(g, buffer, g.unroll, 1 - buffer, pos + g.unroll, if pos + 2 * g.unroll <= end then g.unroll else 0)]
      + PingPongLoop(g, pos + g.unroll, end, 1 - buffer)
    else Remainder(g, pos, end)
  }

  /** Candidate 2: prefetch, main loop, remainder. */
  function PingPong(g: Group, start: nat, end: nat): (p: Program)
    requires g.Valid() && end <= g.l.capacity
  {
    (if start + g.unroll <= end then [Work(g, 0, 0, 0, start, g.unroll)] else []) + PingPongLoop(g, start, end, 0)
  }

  /** Every phase has the workgroup's threads and no race. */
  ghost predicate Sound(g: Group, p: Program) { Shaped(p, g.threads) && AllRaceFree(p) }

  lemma SoundJoins(g: Group, first: Phase<Cell, Vec>, rest: Program)
    requires |first| == g.threads && RaceFree(first) && Sound(g, rest)
    ensures Sound(g, [first] + rest)
  {
    hide RaceFree;
    var p := [first] + rest;
    forall k | 0 <= k < |p| ensures |p[k]| == g.threads && RaceFree(p[k]) {
      if k != 0 { assert p[k] == rest[k - 1]; }
    }
  }

  lemma {:induction false} RemainderIsSound(g: Group, pos: nat, end: nat)
    requires g.Valid() && end <= g.l.capacity
    ensures Sound(g, Remainder(g, pos, end))
    decreases end - pos
  {
    hide Work, RaceFree;
    if pos < end {
      RemainderIsSound(g, pos + 1, end);
      WorkIsRaceFree(g, 0, 1, 0, pos, 0);
      WorkIsRaceFree(g, 0, 0, 0, pos, 1);
      SoundJoins(g, Work(g, 0, 1, 0, pos, 0), Remainder(g, pos + 1, end));
      SoundJoins(g, Work(g, 0, 0, 0, pos, 1), [Work(g, 0, 1, 0, pos, 0)] + Remainder(g, pos + 1, end));
    }
  }

  lemma {:induction false} SingleBufferedIsSound(g: Group, pos: nat, end: nat)
    requires g.Valid() && end <= g.l.capacity
    ensures Sound(g, SingleBuffered(g, pos, end))
    decreases end - pos
  {
    hide Work, RaceFree, Sound, Remainder;
    if pos + g.unroll <= end {
      SingleBufferedIsSound(g, pos + g.unroll, end);
      WorkIsRaceFree(g, 0, g.unroll, 0, pos, 0);
      WorkIsRaceFree(g, 0, 0, 0, pos, g.unroll);
      SoundJoins(g, Work(g, 0, g.unroll, 0, pos, 0), SingleBuffered(g, pos + g.unroll, end));
      SoundJoins(g, Work(g, 0, 0, 0, pos, g.unroll),
                 [Work(g, 0, g.unroll, 0, pos, 0)] + SingleBuffered(g, pos + g.unroll, end));
    } else {
      RemainderIsSound(g, pos, end);
    }
  }

  lemma {:induction false} PingPongLoopIsSound(g: Group, pos: nat, end: nat, buffer: nat)
    requires g.Valid() && end <= g.l.capacity && buffer < 2
    ensures Sound(g, PingPongLoop(g, pos, end, buffer))
    decreases end - pos
  {
    hide Work, RaceFree, Sound, Remainder;
    if pos + g.unroll <= end {
      var fill := if pos + 2 * g.unroll <= end then g.unroll else 0;
      PingPongLoopIsSound(g, pos + g.unroll, end, 1 - buffer);
      WorkIsRaceFree(g, buffer, g.unroll, 1 - buffer, pos + g.unroll, fill);
      SoundJoins(g, Work(g, buffer, g.unroll, 1 - buffer, pos + g.unroll, fill),
                 PingPongLoop(g, pos + g.unroll, end, 1 - buffer));
    } else {
      RemainderIsSound(g, pos, end);
    }
  }

  /** Between any two barriers of the double-buffered kernel no thread writes a cell that another
      one loads or writes. */
  lemma PingPongIsSound(g: Group, start: nat, end: nat)
    requires g.Valid() && end <= g.l.capacity
    ensures Sound(g, PingPong(g, start, end))
  {
    hide Work, RaceFree, Sound;
    PingPongLoopIsSound(g, start, end, 0);
    if start + g.unroll <= end {
      WorkIsRaceFree(g, 0, 0, 0, start, g.unroll);
      SoundJoins(g, Work(g, 0, 0, 0, start, g.unroll), PingPongLoop(g, start, end, 0));
    } else {
      assert [] + PingPongLoop(g, start, end, 0) == PingPongLoop(g, start, end, 0);
    }
  }

  // ----- every position is consumed once, in order, with its own data -----

  /** One position through row 0: stored, then loaded by every thread. */
  lemma RoundTripLoads(g: Group, memory: map<Cell, Vec>, tid: nat, pos: nat, rows: nat, rest: Program)
    requires g.Valid() && pos + rows <= g.l.capacity && rows <= g.unroll && tid < g.threads && Shaped(rest, g.threads)
    ensures var fill, read := Work(g, 0, 0, 0, pos, rows), Work(g, 0, rows, 0, pos, 0);
      var m1 := PhaseEnd(memory, fill, |fill|); var p := [fill] + ([read] + rest);
      && Shaped(p, g.threads)
      && WholeLog(p, g.threads, memory, tid)
         == Loaded(g, tid, pos, pos + rows) + WholeLog(rest, g.threads, PhaseEnd(m1, read, |read|), tid)
  {
    hide Work, Holds, PhaseEnd, WholeLog, OwnLog, Piece, Loaded;
    var fill, read := Work(g, 0, 0, 0, pos, rows), Work(g, 0, rows, 0, pos, 0);
    var m1 := PhaseEnd(memory, fill, |fill|);
    WholeLogUnfold(read, rest, g.threads, m1, tid);
    WholeLogUnfold(fill, [read] + rest, g.threads, memory, tid);
    HoldsNothing(g, memory, 0, pos);
    WorkLoads(g, memory, tid, 0, pos, 0, 0, pos, rows);
    LoadedNothing(g, tid, pos);
    WorkFills(g, memory, 0, 0, 0, pos, rows);
    WorkLoads(g, m1, tid, 0, pos, rows, 0, pos, 0);
  }

  lemma {:induction false} RemainderLoads(g: Group, memory: map<Cell, Vec>, tid: nat, pos: nat, end: nat)
    requires g.Valid() && pos <= end <= g.l.capacity && tid < g.threads && Shaped(Remainder(g, pos, end), g.threads)
    ensures WholeLog(Remainder(g, pos, end), g.threads, memory, tid) == Loaded(g, tid, pos, end)
    decreases end - pos
  {
    hide *;
    RemainderUnfold(g, pos, end);
    if pos < end {
      var fill, read, rest := Work(g, 0, 0, 0, pos, 1), Work(g, 0, 1, 0, pos, 0), Remainder(g, pos + 1, end);
      OneGroup(g);
      RoundTripLoads(g, memory, tid, pos, 1, rest);
      var m1 := PhaseEnd(memory, fill, |fill|);
      RemainderLoads(g, PhaseEnd(m1, read, |read|), tid, pos + 1, end);
      LoadedJoins(g, tid, pos, pos + 1, end);
    } else {
      LoadedNothing(g, tid, pos);
      EmptyLog(g.threads, memory, tid);
    }
  }

  lemma OneGroup(g: Group)
    requires g.Valid()
    ensures 1 <= g.unroll
  {}

  lemma EmptyLog(threads: nat, memory: map<Cell, Vec>, tid: nat)
    requires tid < threads
    ensures WholeLog([], threads, memory, tid) == []
  {}

  lemma RemainderUnfold(g: Group, pos: nat, end: nat)
    requires g.Valid() && end <= g.l.capacity
    ensures pos < end ==>
      Remainder(g, pos, end) == [Work(g, 0, 0, 0, pos, 1)] + ([Work(g, 0, 1, 0, pos, 0)] + Remainder(g, pos + 1, end))
      && Shaped(Remainder(g, pos + 1, end), g.threads)
    ensures end <= pos ==> Remainder(g, pos, end) == []
  {
    hide Work, RaceFree;
    RemainderIsSound(g, pos + 1, end);
  }

  lemma {:induction false} SingleBufferedLoads(g: Group, memory: map<Cell, Vec>, tid: nat, pos: nat, end: nat)
    requires g.Valid() && pos <= end <= g.l.capacity && tid < g.threads
    requires Shaped(SingleBuffered(g, pos, end), g.threads)
    ensures WholeLog(SingleBuffered(g, pos, end), g.threads, memory, tid) == Loaded(g, tid, pos, end)
    decreases end - pos
  {
    hide Work, Holds, PhaseEnd, WholeLog, OwnLog, Piece, Remainder, Loaded;
    var u := g.unroll;
    if pos + u <= end {
      var fill, read, rest := Work(g, 0, 0, 0, pos, u), Work(g, 0, u, 0, pos, 0), SingleBuffered(g, pos + u, end);
      SingleBufferedIsSound(g, pos + u, end);
      RoundTripLoads(g, memory, tid, pos, u, rest);
      var m1 := PhaseEnd(memory, fill, |fill|);
      SingleBufferedLoads(g, PhaseEnd(m1, read, |read|), tid, pos + u, end);
      LoadedJoins(g, tid, pos, pos + u, end);
    } else {
      RemainderLoads(g, memory, tid, pos, end);
    }
  }

  lemma LoadedNothing(g: Group, tid: nat, pos: nat)
    requires g.Valid() && pos <= g.l.capacity
    ensures Loaded(g, tid, pos, pos) == []
  {}

  /** At every entry of the main loop the current buffer holds exactly the next positions. */
  lemma {:induction false} PingPongLoopLoads(g: Group, memory: map<Cell, Vec>, tid: nat, pos: nat, end: nat,
                                             buffer: nat)
    requires g.Valid() && pos <= end <= g.l.capacity && tid < g.threads && buffer < 2
    requires Shaped(PingPongLoop(g, pos, end, buffer), g.threads)
    requires pos + g.unroll <= end ==> Holds(g, memory, buffer, pos, g.unroll)
    ensures WholeLog(PingPongLoop(g, pos, end, buffer), g.threads, memory, tid) == Loaded(g, tid, pos, end)
    decreases end - pos
  {
    hide Work, Holds, PhaseEnd, WholeLog, OwnLog, Piece, Remainder, Loaded;
    var u := g.unroll;
    if pos + u <= end {
      var fill := if pos + 2 * u <= end then u else 0;
      var work, rest := Work(g, buffer, u, 1 - buffer, pos + u, fill), PingPongLoop(g, pos + u, end, 1 - buffer);
      PingPongLoopIsSound(g, pos + u, end, 1 - buffer);
      WholeLogUnfold(work, rest, g.threads, memory, tid);
      WorkLoads(g, memory, tid, buffer, pos, u, 1 - buffer, pos + u, fill);
      if pos + 2 * u <= end { WorkFills(g, memory, buffer, u, 1 - buffer, pos + u, u); }
      PingPongLoopLoads(g, PhaseEnd(memory, work, |work|), tid, pos + u, end, 1 - buffer);
      LoadedJoins(g, tid, pos, pos + u, end);
    } else {
      RemainderLoads(g, memory, tid, pos, end);
    }
  }

  lemma PingPongLoads(g: Group, memory: map<Cell, Vec>, tid: nat, start: nat, end: nat)
    requires g.Valid() && start <= end <= g.l.capacity && tid < g.threads && Shaped(PingPong(g, start, end), g.threads)
    ensures WholeLog(PingPong(g, start, end), g.threads, memory, tid) == Loaded(g, tid, start, end)
  {
    hide Work, Holds, PhaseEnd, WholeLog, OwnLog, Piece, PingPongLoop, Loaded;
    var loop := PingPongLoop(g, start, end, 0);
    PingPongLoopIsSound(g, start, end, 0);
    if start + g.unroll <= end {
      var fill := Work(g, 0, 0, 0, start, g.unroll);
      WholeLogUnfold(fill, loop, g.threads, memory, tid);
      HoldsNothing(g, memory, 0, start);
      WorkLoads(g, memory, tid, 0, start, 0, 0, start, g.unroll);
      LoadedNothing(g, tid, start);
      WorkFills(g, memory, 0, 0, 0, start, g.unroll);
      PingPongLoopLoads(g, PhaseEnd(memory, fill, |fill|), tid, start, end, 0);
    } else {
      assert PingPong(g, start, end) == loop;
      PingPongLoopLoads(g, memory, tid, start, end, 0);
    }
  }

  /** Whatever the interleaving and the initial contents of LDS, every thread of the
      double-buffered kernel has loaded its lane of each position of [start, end) exactly once, in
      order. */
  lemma PingPongDelivers(g: Group, memory: map<Cell, Vec>, schedule: seq<Choice>, m: Machine<Cell, Vec>, start: nat,
                         end: nat)
    requires g.Valid() && start <= end <= g.l.capacity && Shaped(PingPong(g, start, end), g.threads)
    requires Reaches(PingPong(g, start, end), g.threads, memory, schedule, m) && m.phase == |PingPong(g, start, end)|
    ensures |m.logs| == g.threads && forall tid :: 0 <= tid < g.threads ==> m.logs[tid] == Loaded(g, tid, start, end)
  {
    hide PingPong, AllRaceFree, Shaped, Loaded, LogAt, Reaches;
    PingPongIsSound(g, start, end);
    EveryRunEndsAlike(PingPong(g, start, end), g.threads, memory, schedule, m);
    forall tid | 0 <= tid < g.threads ensures m.logs[tid] == Loaded(g, tid, start, end) {
      PingPongLoads(g, memory, tid, start, end);
    }
  }

  /** The same for the single-buffered kernel. */
  lemma SingleBufferedDelivers(g: Group, memory: map<Cell, Vec>, schedule: seq<Choice>, m: Machine<Cell, Vec>,
                               start: nat, end: nat)
    requires g.Valid() && start <= end <= g.l.capacity && Shaped(SingleBuffered(g, start, end), g.threads)
    requires Reaches(SingleBuffered(g, start, end), g.threads, memory, schedule, m)
    requires m.phase == |SingleBuffered(g, start, end)|
    ensures |m.logs| == g.threads && forall tid :: 0 <= tid < g.threads ==> m.logs[tid] == Loaded(g, tid, start, end)
  {
    hide SingleBuffered, AllRaceFree, Shaped, Loaded, LogAt, Reaches;
    SingleBufferedIsSound(g, start, end);
    EveryRunEndsAlike(SingleBuffered(g, start, end), g.threads, memory, schedule, m);
    forall tid | 0 <= tid < g.threads ensures m.logs[tid] == Loaded(g, tid, start, end) {
      SingleBufferedLoads(g, memory, tid, start, end);
    }
  }

  // ----- the buffer invariant -----

  lemma {:induction false} LoopEntryHolds(g: Group, memory: map<Cell, Vec>, pos: nat, end: nat, buffer: nat, i: nat)
    requires g.Valid() && end <= g.l.capacity && buffer < 2 && Shaped(PingPongLoop(g, pos, end, buffer), g.threads)
    requires pos + Lanes(i, g.unroll) + g.unroll <= end && Holds(g, memory, buffer, pos, g.unroll)
    ensures i < |PingPongLoop(g, pos, end, buffer)|
    ensures Holds(g, MemoryAt(PingPongLoop(g, pos, end, buffer), memory, i), if i % 2 == 0 then buffer else 1 - buffer,
                  pos + Lanes(i, g.unroll), g.unroll)
    decreases i
  {
    hide *;
    var u := g.unroll;
    var loop := PingPongLoop(g, pos, end, buffer);
    if i == 0 {
      EntryOfFirst(g, loop, memory);
      LoopUnfold(g, pos, end, buffer);
    } else {
      LanesNext(i - 1, u);
      TwoGroups(i, u);
      LoopUnfold(g, pos, end, buffer);
      var work, rest := Work(g, buffer, u, 1 - buffer, pos + u, u), PingPongLoop(g, pos + u, end, 1 - buffer);
      LoopIsShaped(g, pos + u, end, 1 - buffer);
      WorkFills(g, memory, buffer, u, 1 - buffer, pos + u, u);
      LoopEntryHolds(g, PhaseEnd(memory, work, |work|), pos + u, end, 1 - buffer, i - 1);
      MemoryFromSecond(loop, memory, i - 1);
    }
  }

  /** Behind a later iteration lie at least two groups. */
  lemma TwoGroups(i: nat, u: nat)
    requires 0 < i
    ensures u <= Lanes(i, u)
  {
    ProductOrder(1, i, u);
  }

  lemma LoopUnfold(g: Group, pos: nat, end: nat, buffer: nat)
    requires g.Valid() && end <= g.l.capacity && buffer < 2 && pos + g.unroll <= end
    ensures var fill := if pos + 2 * g.unroll <= end then g.unroll else 0;
      var loop, rest := PingPongLoop(g, pos, end, buffer), PingPongLoop(g, pos + g.unroll, end, 1 - buffer);
      && loop == [Work(g, buffer, g.unroll, 1 - buffer, pos + g.unroll, fill)] + rest
      && 0 < |loop| && loop[0] == Work(g, buffer, g.unroll, 1 - buffer, pos + g.unroll, fill) && loop[1..] == rest
  {
    hide Work;
  }

  lemma EntryOfFirst(g: Group, loop: Program, memory: map<Cell, Vec>)
    ensures MemoryAt(loop, memory, 0) == memory && Lanes(0, g.unroll) == 0
  {}

  lemma LoopIsShaped(g: Group, pos: nat, end: nat, buffer: nat)
    requires g.Valid() && end <= g.l.capacity && buffer < 2
    ensures Shaped(PingPongLoop(g, pos, end, buffer), g.threads)
  {
    hide RaceFree;
    PingPongLoopIsSound(g, pos, end, buffer);
  }

  lemma LanesNext(i: nat, u: nat)
    ensures Lanes(i + 1, u) == Lanes(i, u) + u
  {}

  /** At the entry of main-loop iteration `i`, in every interleaving, the current buffer holds the
      keys and values of exactly the next `unroll` positions. */
  lemma BufferAtEntry(g: Group, memory: map<Cell, Vec>, schedule: seq<Choice>, m: Machine<Cell, Vec>, start: nat,
                      end: nat, i: nat)
    requires g.Valid() && end <= g.l.capacity && start + Lanes(i, g.unroll) + g.unroll <= end
    requires Shaped(PingPong(g, start, end), g.threads)
    requires Reaches(PingPong(g, start, end), g.threads, memory, schedule, m)
    requires m.phase == i + 1 && forall t :: 0 <= t < g.threads ==> m.at[t] == 0
    ensures Holds(g, m.memory, i % 2, start + Lanes(i, g.unroll), g.unroll)
  {
    hide Work, Holds, PhaseEnd, Piece, PingPongLoop, AllRaceFree, Reaches, Lanes;
    var fill, loop := Work(g, 0, 0, 0, start, g.unroll), PingPongLoop(g, start, end, 0);
    var p := PingPong(g, start, end);
    assert p == [fill] + loop && p[1..] == loop;
    PingPongLoopIsSound(g, start, end, 0);
    PingPongIsSound(g, start, end);
    WorkFills(g, memory, 0, 0, 0, start, g.unroll);
    LoopEntryHolds(g, PhaseEnd(memory, fill, |fill|), start, end, 0, i);
    MemoryFromSecond(p, memory, i);
    EntryMemory(p, g.threads, memory, schedule, m);
  }
}
