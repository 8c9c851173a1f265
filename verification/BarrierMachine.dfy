/** Threads that share memory and meet at barriers. A program is a list of phases; in each phase
    every thread performs its own loads and stores, in any interleaving with the others, and no
    thread enters the next phase before all have finished this one. Addresses and stored values do
    not depend on what was loaded, so a thread's loads are recorded in a log. */
module BarrierMachine {
  import opened Wrappers

  datatype Op<C, V> = Load(cell: C) | Store(cell: C, value: V)

  type Ops<C, V> = seq<Op<C, V>>
  type Phase<C, V> = seq<Ops<C, V>>

  datatype Machine<C, V> = Machine(memory: map<C, V>, phase: nat, at: seq<nat>, logs: seq<seq<Option<V>>>)

  /** Which thread moves next, or that all cross the barrier. */
  datatype Choice = Thread(id: nat) | Barrier

  ghost predicate Shaped<C, V>(program: seq<Phase<C, V>>, threads: nat) {
    forall k :: 0 <= k < |program| ==> |program[k]| == threads
  }

  /** The counters are within the current phase. */
  ghost predicate Fitting<C, V>(program: seq<Phase<C, V>>, threads: nat, m: Machine<C, V>) {
    && Shaped(program, threads) && m.phase <= |program| && |m.at| == |m.logs| == threads
    && (m.phase < |program| ==> forall t :: 0 <= t < threads ==> m.at[t] <= |program[m.phase][t]|)
  }

  ghost predicate Enabled<C, V>(program: seq<Phase<C, V>>, threads: nat, m: Machine<C, V>, choice: Choice)
    requires Fitting(program, threads, m)
  {
    m.phase < |program|
    && match choice
       case Thread(t) => t < threads && m.at[t] < |program[m.phase][t]|
       case Barrier => forall t :: 0 <= t < threads ==> m.at[t] == |program[m.phase][t]|
  }

  function Get<C, V>(memory: map<C, V>, cell: C): Option<V> {
    if cell in memory then Some(memory[cell]) else None
  }

  function Perform<C, V>(m: Machine<C, V>, t: nat, op: Op<C, V>): Machine<C, V>
    requires t < |m.at| == |m.logs|
  {
    match op
    case Load(cell) => m.(at := m.at[t := m.at[t] + 1], logs := m.logs[t := m.logs[t] + [Get(m.memory, cell)]])
    case Store(cell, value) => m.(at := m.at[t := m.at[t] + 1], memory := m.memory[cell := value])
  }

  function Cross<C, V>(m: Machine<C, V>): Machine<C, V> {
    m.(phase := m.phase + 1, at := seq(|m.at|, t => 0))
  }

  ghost function Next<C, V>(program: seq<Phase<C, V>>, threads: nat, m: Machine<C, V>,
                            choice: Choice): (r: Machine<C, V>)
    requires Fitting(program, threads, m) && Enabled(program, threads, m, choice)
    ensures Fitting(program, threads, r)
  {
    match choice
    case Thread(t) => Perform(m, t, program[m.phase][t][m.at[t]])
    case Barrier => Cross(m)
  }

  function Start<C, V>(threads: nat, memory: map<C, V>): (m: Machine<C, V>) {
    Machine(memory, 0, seq(threads, t => 0), seq(threads, t => []))
  }

  /** `m` is reached from the start by some interleaving. */
  ghost predicate Reaches<C(!new), V(!new)>(program: seq<Phase<C, V>>, threads: nat, memory: map<C, V>,
                                            schedule: seq<Choice>, m: Machine<C, V>)
    requires Shaped(program, threads)
    decreases |schedule|
  {
    Fitting(program, threads, m)
    && if schedule == [] then m == Start(threads, memory)
       else exists b: Machine<C, V> {:trigger Reaches(program, threads, memory, schedule[..|schedule| - 1], b)} ::
         Reaches(program, threads, memory, schedule[..|schedule| - 1], b)
           && Moves(program, threads, b, schedule[|schedule| - 1], m)
  }

  ghost predicate Moves<C, V>(program: seq<Phase<C, V>>, threads: nat, b: Machine<C, V>, choice: Choice,
                              m: Machine<C, V>)
    requires Fitting(program, threads, b)
  {
    Enabled(program, threads, b, choice) && m == Next(program, threads, b, choice)
  }

  // ----- what one thread sees of its own phase -----

  /** The last value stored to `cell` by the first `n` operations, else `before`. */
  function LastStore<C(==), V>(ops: Ops<C, V>, n: nat, cell: C, before: Option<V>): Option<V>
    requires n <= |ops|
  {
    if n == 0 then before
    else if ops[n - 1].Store? && ops[n - 1].cell == cell then Some(ops[n - 1].value)
    else LastStore(ops, n - 1, cell, before)
  }

  /** The loads of the first `n` operations, run alone on `memory`. */
  function OwnLog<C(==), V>(memory: map<C, V>, ops: Ops<C, V>, n: nat): seq<Option<V>>
    requires n <= |ops|
  {
    if n == 0 then []
    else if ops[n - 1].Load? then
      OwnLog(memory, ops, n - 1) + [LastStore(ops, n - 1, ops[n - 1].cell, Get(memory, ops[n - 1].cell))]
    else OwnLog(memory, ops, n - 1)
  }

  ghost predicate Touches<C, V>(ops: Ops<C, V>, cell: C) {
    exists i :: 0 <= i < |ops| && ops[i].cell == cell
  }

  ghost predicate Writes<C, V>(ops: Ops<C, V>, cell: C) {
    exists i :: 0 <= i < |ops| && ops[i].Store? && ops[i].cell == cell
  }

  /** Between two barriers no thread touches a cell that another one writes. */
  ghost predicate RaceFree<C(!new), V>(phase: Phase<C, V>) {
    forall t, u, cell :: 0 <= t < |phase| && 0 <= u < |phase| && t != u && Writes(phase[t], cell) ==>
      !Touches(phase[u], cell)
  }

  ghost predicate AllRaceFree<C(!new), V>(program: seq<Phase<C, V>>) {
    forall k :: 0 <= k < |program| ==> RaceFree(program[k])
  }

  lemma {:induction false} UnwrittenKeeps<C, V>(ops: Ops<C, V>, n: nat, cell: C, before: Option<V>)
    requires n <= |ops| && !Writes(ops, cell)
    ensures LastStore(ops, n, cell, before) == before
  {
    if n != 0 { UnwrittenKeeps(ops, n - 1, cell, before); }
  }

  // ----- the threads one after the other -----

  function Applied<C, V>(memory: map<C, V>, ops: Ops<C, V>, n: nat): map<C, V>
    requires n <= |ops|
  {
    if n == 0 then memory
    else if ops[n - 1].Store? then Applied(memory, ops, n - 1)[ops[n - 1].cell := ops[n - 1].value]
    else Applied(memory, ops, n - 1)
  }

  lemma {:induction false} AppliedGets<C, V>(memory: map<C, V>, ops: Ops<C, V>, n: nat, cell: C)
    requires n <= |ops|
    ensures Get(Applied(memory, ops, n), cell) == LastStore(ops, n, cell, Get(memory, cell))
  {
    if n != 0 { AppliedGets(memory, ops, n - 1, cell); }
  }

  /** The memory after the first `n` threads have run the phase one by one. */
  function PhaseEnd<C, V>(memory: map<C, V>, phase: Phase<C, V>, n: nat): map<C, V>
    requires n <= |phase|
  {
    if n == 0 then memory else Applied(PhaseEnd(memory, phase, n - 1), phase[n - 1], |phase[n - 1]|)
  }

  lemma {:induction false} PhaseEndUnwritten<C(!new), V>(memory: map<C, V>, phase: Phase<C, V>, n: nat, cell: C)
    requires n <= |phase| && forall u :: 0 <= u < n ==> !Writes(phase[u], cell)
    ensures Get(PhaseEnd(memory, phase, n), cell) == Get(memory, cell)
  {
    if n != 0 {
      PhaseEndUnwritten(memory, phase, n - 1, cell);
      AppliedGets(PhaseEnd(memory, phase, n - 1), phase[n - 1], |phase[n - 1]|, cell);
      UnwrittenKeeps(phase[n - 1], |phase[n - 1]|, cell, Get(PhaseEnd(memory, phase, n - 1), cell));
    }
  }

  lemma {:induction false} PhaseEndWritten<C(!new), V>(memory: map<C, V>, phase: Phase<C, V>, n: nat, t: nat, cell: C)
    requires t < n <= |phase| && forall u :: 0 <= u < n && u != t ==> !Writes(phase[u], cell)
    ensures Get(PhaseEnd(memory, phase, n), cell) == LastStore(phase[t], |phase[t]|, cell, Get(memory, cell))
  {
    AppliedGets(PhaseEnd(memory, phase, n - 1), phase[n - 1], |phase[n - 1]|, cell);
    if t == n - 1 {
      PhaseEndUnwritten(memory, phase, n - 1, cell);
    } else {
      PhaseEndWritten(memory, phase, n - 1, t, cell);
      UnwrittenKeeps(phase[n - 1], |phase[n - 1]|, cell, Get(PhaseEnd(memory, phase, n - 1), cell));
    }
  }

  /** The memory at the start of phase `k`. */
  function MemoryAt<C, V>(program: seq<Phase<C, V>>, memory: map<C, V>, k: nat): map<C, V>
    requires k <= |program|
  {
    if k == 0 then memory else PhaseEnd(MemoryAt(program, memory, k - 1), program[k - 1], |program[k - 1]|)
  }

  /** What thread `t` has loaded before phase `k`. */
  function LogAt<C(==), V>(program: seq<Phase<C, V>>, threads: nat, memory: map<C, V>, t: nat, k: nat): seq<Option<V>>
    requires k <= |program| && t < threads && forall i :: 0 <= i < |program| ==> |program[i]| == threads
  {
    if k == 0 then []
    else LogAt(program, threads, memory, t, k - 1)
         + OwnLog(MemoryAt(program, memory, k - 1), program[k - 1][t], |program[k - 1][t]|)
  }

  // ----- every interleaving agrees -----

  /** In the middle of a phase each cell a thread touches shows exactly that thread's own stores. */
  ghost predicate CellsAgree<C(!new), V(!new)>(memory: map<C, V>, phase: Phase<C, V>, now: map<C, V>, at: seq<nat>)
    requires |at| == |phase| && forall t :: 0 <= t < |at| ==> at[t] <= |phase[t]|
  {
    && (forall t, cell :: 0 <= t < |phase| && Touches(phase[t], cell) ==>
      Get(now, cell) == LastStore(phase[t], at[t], cell, Get(memory, cell)))
    && (forall cell {:trigger Get(now, cell)} ::
      (forall t :: 0 <= t < |phase| ==> !Writes(phase[t], cell)) ==>
      Get(now, cell) == Get(memory, cell))
  }

  ghost predicate LogsAgree<C(!new), V(!new)>(program: seq<Phase<C, V>>, threads: nat, memory: map<C, V>,
                                              m: Machine<C, V>)
    requires Fitting(program, threads, m)
  {
    forall t {:trigger m.logs[t]} :: 0 <= t < threads ==>
      m.logs[t] == LogAt(program, threads, memory, t, m.phase)
        + if m.phase < |program| then OwnLog(MemoryAt(program, memory, m.phase), program[m.phase][t], m.at[t]) else []
  }

  ghost predicate Agrees<C(!new), V(!new)>(program: seq<Phase<C, V>>, threads: nat, memory: map<C, V>,
                                           m: Machine<C, V>) {
    && Fitting(program, threads, m)
    && LogsAgree(program, threads, memory, m)
    && if m.phase < |program| then CellsAgree(MemoryAt(program, memory, m.phase), program[m.phase], m.memory, m.at)
       else m.memory == MemoryAt(program, memory, m.phase)
  }

  lemma LoadKeepsCells<C(!new), V(!new)>(memory: map<C, V>, phase: Phase<C, V>, now: map<C, V>, at: seq<nat>, t: nat)
    requires |at| == |phase| && (forall u :: 0 <= u < |at| ==> at[u] <= |phase[u]|) && t < |at| && at[t] < |phase[t]|
    requires CellsAgree(memory, phase, now, at) && phase[t][at[t]].Load?
    ensures CellsAgree(memory, phase, now, at[t := at[t] + 1])
  {
    var at' := at[t := at[t] + 1];
    forall u, cell | 0 <= u < |phase| && Touches(phase[u], cell)
      ensures Get(now, cell) == LastStore(phase[u], at'[u], cell, Get(memory, cell))
    {
      assert Get(now, cell) == LastStore(phase[u], at[u], cell, Get(memory, cell));
    }
  }

  lemma StoreKeepsCells<C(!new), V(!new)>(memory: map<C, V>, phase: Phase<C, V>, now: map<C, V>, at: seq<nat>, t: nat)
    requires |at| == |phase| && (forall u :: 0 <= u < |at| ==> at[u] <= |phase[u]|) && t < |at| && at[t] < |phase[t]|
    requires CellsAgree(memory, phase, now, at) && RaceFree(phase) && phase[t][at[t]].Store?
    ensures CellsAgree(memory, phase, now[phase[t][at[t]].cell := phase[t][at[t]].value], at[t := at[t] + 1])
  {
    var op := phase[t][at[t]];
    var now', at' := now[op.cell := op.value], at[t := at[t] + 1];
    assert Writes(phase[t], op.cell);
    forall u, cell | 0 <= u < |phase| && Touches(phase[u], cell)
      ensures Get(now', cell) == LastStore(phase[u], at'[u], cell, Get(memory, cell))
    {
      assert Get(now, cell) == LastStore(phase[u], at[u], cell, Get(memory, cell));
    }
    forall cell {:trigger Get(now', cell)} | forall u :: 0 <= u < |phase| ==> !Writes(phase[u], cell)
      ensures Get(now', cell) == Get(memory, cell)
    {
      assert cell != op.cell;
      assert Get(now, cell) == Get(memory, cell);
    }
  }

  lemma SameMemory<C(!new), V(!new)>(a: map<C, V>, b: map<C, V>)
    requires forall cell :: Get(a, cell) == Get(b, cell)
    ensures a == b
  {
    assert forall cell :: cell in a <==> Get(a, cell).Some?;
    assert forall cell :: cell in b <==> Get(b, cell).Some?;
    assert forall cell :: cell in a ==> a[cell] == Get(a, cell).value;
    assert forall cell :: cell in b ==> b[cell] == Get(b, cell).value;
  }

  lemma WritesTouches<C(!new), V(!new)>(ops: Ops<C, V>, cell: C)
    ensures Writes(ops, cell) ==> Touches(ops, cell)
  {}

  /** When every thread is done, memory is what the threads leave one after the other. */
  lemma PhaseEndsAlike<C(!new), V(!new)>(memory: map<C, V>, phase: Phase<C, V>, now: map<C, V>, at: seq<nat>)
    requires |at| == |phase| && (forall t :: 0 <= t < |at| ==> at[t] == |phase[t]|)
    requires CellsAgree(memory, phase, now, at) && RaceFree(phase)
    ensures now == PhaseEnd(memory, phase, |phase|)
  {
    forall cell ensures Get(now, cell) == Get(PhaseEnd(memory, phase, |phase|), cell) {
      if t :| 0 <= t < |phase| && Writes(phase[t], cell) {
        var i :| 0 <= i < |phase[t]| && phase[t][i].Store? && phase[t][i].cell == cell;
        assert Touches(phase[t], cell);
        forall u | 0 <= u < |phase| && u != t ensures !Writes(phase[u], cell) {
          WritesTouches(phase[u], cell);
        }
        PhaseEndWritten(memory, phase, |phase|, t, cell);
      } else {
        PhaseEndUnwritten(memory, phase, |phase|, cell);
      }
    }
    SameMemory(now, PhaseEnd(memory, phase, |phase|));
  }

  lemma FreshCells<C(!new), V(!new)>(memory: map<C, V>, phase: Phase<C, V>, at: seq<nat>)
    requires |at| == |phase| && forall t :: 0 <= t < |at| ==> at[t] == 0
    ensures CellsAgree(memory, phase, memory, at)
  {}

  lemma ThreadAgrees<C(!new), V(!new)>(program: seq<Phase<C, V>>, threads: nat, memory: map<C, V>, m: Machine<C, V>,
                                       t: nat)
    requires AllRaceFree(program) && Agrees(program, threads, memory, m) && Enabled(program, threads, m, Thread(t))
    ensures Agrees(program, threads, memory, Next(program, threads, m, Thread(t)))
  {
    hide CellsAgree, RaceFree, MemoryAt, LogAt, Get;
    var phase, start := program[m.phase], MemoryAt(program, memory, m.phase);
    var op: Op<C, V> := phase[t][m.at[t]];
    var r := Next(program, threads, m, Thread(t));
    if op.Load? {
      LoadKeepsCells(start, phase, m.memory, m.at, t);
      OwnCell(start, phase, m.memory, m.at, t);
    } else {
      StoreKeepsCells(start, phase, m.memory, m.at, t);
    }
    forall u {:trigger r.logs[u]} | 0 <= u < threads
      ensures r.logs[u] == LogAt(program, threads, memory, u, m.phase) + OwnLog(start, phase[u], r.at[u])
    {
      assert m.logs[u] == LogAt(program, threads, memory, u, m.phase) + OwnLog(start, phase[u], m.at[u]);
    }
  }

  /** A load returns what the thread would read running alone. */
  lemma OwnCell<C(!new), V(!new)>(memory: map<C, V>, phase: Phase<C, V>, now: map<C, V>, at: seq<nat>, t: nat)
    requires |at| == |phase| && (forall u :: 0 <= u < |at| ==> at[u] <= |phase[u]|) && t < |at| && at[t] < |phase[t]|
    requires CellsAgree(memory, phase, now, at)
    ensures var cell := phase[t][at[t]].cell; Get(now, cell) == LastStore(phase[t], at[t], cell, Get(memory, cell))
  {
    assert Touches(phase[t], phase[t][at[t]].cell);
  }

  lemma BarrierAgrees<C(!new), V(!new)>(program: seq<Phase<C, V>>, threads: nat, memory: map<C, V>, m: Machine<C, V>)
    requires AllRaceFree(program) && Agrees(program, threads, memory, m) && Enabled(program, threads, m, Barrier)
    ensures Agrees(program, threads, memory, Next(program, threads, m, Barrier))
  {
    hide CellsAgree, RaceFree, Get;
    PhaseEndsAlike(MemoryAt(program, memory, m.phase), program[m.phase], m.memory, m.at);
    var r := Next(program, threads, m, Barrier);
    if r.phase < |program| {
      FreshCells(r.memory, program[r.phase], r.at);
    }
    forall t {:trigger r.logs[t]} | 0 <= t < threads
      ensures r.logs[t] == LogAt(program, threads, memory, t, r.phase)
    {
      assert m.logs[t] == LogAt(program, threads, memory, t, m.phase)
        + OwnLog(MemoryAt(program, memory, m.phase), program[m.phase][t], m.at[t]);
    }
  }

  lemma StartAgrees<C(!new), V(!new)>(program: seq<Phase<C, V>>, threads: nat, memory: map<C, V>)
    requires Shaped(program, threads)
    ensures Agrees(program, threads, memory, Start(threads, memory))
  {
    var m: Machine<C, V> := Start(threads, memory);
    if 0 < |program| { FreshCells(memory, program[0], m.at); }
  }

  /** Every reachable machine agrees with the sequential reading of the program. */
  lemma {:induction false} ReachableAgrees<C(!new), V(!new)>(program: seq<Phase<C, V>>, threads: nat,
                                                             memory: map<C, V>, schedule: seq<Choice>, m: Machine<C, V>)
    requires Shaped(program, threads) && AllRaceFree(program) && Reaches(program, threads, memory, schedule, m)
    ensures Agrees(program, threads, memory, m)
    decreases |schedule|
  {
    hide Agrees, AllRaceFree, Next, Enabled;
    if schedule == [] {
      StartAgrees(program, threads, memory);
    } else {
      var last := schedule[|schedule| - 1];
      var b: Machine<C, V> :| Reaches(program, threads, memory, schedule[..|schedule| - 1], b)
        && Moves(program, threads, b, last, m);
      ReachableAgrees(program, threads, memory, schedule[..|schedule| - 1], b);
      match last {
        case Thread(t) => ThreadAgrees(program, threads, memory, b, t);
        case Barrier => BarrierAgrees(program, threads, memory, b);
      }
    }
  }

  /** A race-free program is deterministic: all finished runs end with the same logs and memory. */
  lemma EveryRunEndsAlike<C(!new), V(!new)>(program: seq<Phase<C, V>>, threads: nat, memory: map<C, V>,
                                            schedule: seq<Choice>, m: Machine<C, V>)
    requires Shaped(program, threads) && AllRaceFree(program) && Reaches(program, threads, memory, schedule, m)
    requires m.phase == |program|
    ensures m.memory == MemoryAt(program, memory, |program|)
    ensures |m.logs| == threads && forall t :: 0 <= t < threads ==>
      m.logs[t] == LogAt(program, threads, memory, t, |program|)
  {
    hide AllRaceFree, MemoryAt, LogAt;
    ReachableAgrees(program, threads, memory, schedule, m);
  }

  /** Just after a barrier, memory is what the earlier phases leave one after the other. */
  lemma EntryMemory<C(!new), V(!new)>(program: seq<Phase<C, V>>, threads: nat, memory: map<C, V>,
                                      schedule: seq<Choice>, m: Machine<C, V>)
    requires Shaped(program, threads) && AllRaceFree(program) && Reaches(program, threads, memory, schedule, m)
    requires m.phase < |program| && forall t :: 0 <= t < threads ==> m.at[t] == 0
    ensures m.memory == MemoryAt(program, memory, m.phase)
  {
    hide AllRaceFree, MemoryAt, LogAt, LogsAgree;
    ReachableAgrees(program, threads, memory, schedule, m);
    var phase, start := program[m.phase], MemoryAt(program, memory, m.phase);
    forall cell ensures Get(m.memory, cell) == Get(start, cell) {
      if t :| 0 <= t < |phase| && Touches(phase[t], cell) {
        assert Get(m.memory, cell) == LastStore(phase[t], m.at[t], cell, Get(start, cell));
      } else {
        forall t | 0 <= t < |phase| ensures !Writes(phase[t], cell) { WritesTouches(phase[t], cell); }
      }
    }
    SameMemory(m.memory, start);
  }

  /** No run gets stuck before the end. */
  lemma SomeChoiceIsEnabled<C(!new), V(!new)>(program: seq<Phase<C, V>>, threads: nat, m: Machine<C, V>)
    requires Fitting(program, threads, m) && m.phase < |program|
    ensures exists choice :: Enabled(program, threads, m, choice)
  {
    if t :| 0 <= t < threads && m.at[t] < |program[m.phase][t]| {
      assert Enabled(program, threads, m, Thread(t));
    } else {
      assert Enabled(program, threads, m, Barrier);
    }
  }

  // ----- every run ends -----

  function OpsLeft<C, V>(phase: Phase<C, V>, at: seq<nat>, n: nat): nat
    requires n <= |phase| == |at| && forall t :: 0 <= t < |at| ==> at[t] <= |phase[t]|
  {
    if n == 0 then 0 else OpsLeft(phase, at, n - 1) + (|phase[n - 1]| - at[n - 1])
  }

  lemma {:induction false} OneOpLess<C, V>(phase: Phase<C, V>, at: seq<nat>, t: nat, n: nat)
    requires n <= |phase| == |at| && (forall u :: 0 <= u < |at| ==> at[u] <= |phase[u]|) && t < |at|
    requires at[t] < |phase[t]|
    ensures OpsLeft(phase, at[t := at[t] + 1], n) == OpsLeft(phase, at, n) - if t < n then 1 else 0
  {
    if n != 0 { OneOpLess(phase, at, t, n - 1); }
  }

  /** The steps a machine still has to take: its operations and its barriers. */
  ghost function StepsLeft<C, V>(program: seq<Phase<C, V>>, threads: nat, m: Machine<C, V>): nat
    requires Fitting(program, threads, m)
  {
    if m.phase == |program| then 0
    else OpsLeft(program[m.phase], m.at, threads) + 1 + PhasesLeft(program, threads, m.phase + 1)
  }

  ghost function PhasesLeft<C, V>(program: seq<Phase<C, V>>, threads: nat, k: nat): nat
    requires Shaped(program, threads) && k <= |program|
    decreases |program| - k
  {
    if k == |program| then 0
    else OpsLeft(program[k], seq(threads, t => 0), threads) + 1 + PhasesLeft(program, threads, k + 1)
  }

  lemma {:induction false} NoOpsLeft<C, V>(phase: Phase<C, V>, at: seq<nat>, n: nat)
    requires n <= |phase| == |at| && forall t :: 0 <= t < |at| ==> at[t] == |phase[t]|
    ensures OpsLeft(phase, at, n) == 0
  {
    if n != 0 { NoOpsLeft(phase, at, n - 1); }
  }

  /** Whatever moves, one step fewer is left: every run is finite and all have the same length. */
  lemma EveryMoveCounts<C(!new), V(!new)>(program: seq<Phase<C, V>>, threads: nat, m: Machine<C, V>, choice: Choice)
    requires Fitting(program, threads, m) && Enabled(program, threads, m, choice)
    ensures StepsLeft(program, threads, Next(program, threads, m, choice)) == StepsLeft(program, threads, m) - 1
  {
    match choice {
      case Thread(t) => OneOpLess(program[m.phase], m.at, t, threads);
      case Barrier => NoOpsLeft(program[m.phase], m.at, threads);
    }
  }

  lemma Extend<C(!new), V(!new)>(program: seq<Phase<C, V>>, threads: nat, memory: map<C, V>, schedule: seq<Choice>,
                                 m: Machine<C, V>, choice: Choice)
    requires Shaped(program, threads) && Reaches(program, threads, memory, schedule, m)
    requires Enabled(program, threads, m, choice)
    ensures Reaches(program, threads, memory, schedule + [choice], Next(program, threads, m, choice))
  {
    var longer := schedule + [choice];
    assert longer[..|longer| - 1] == schedule;
    assert Moves(program, threads, m, longer[|longer| - 1], Next(program, threads, m, choice));
  }

  /** Every run can be continued to the end of the program. */
  lemma {:induction false} EveryRunCanFinish<C(!new), V(!new)>(program: seq<Phase<C, V>>, threads: nat,
      memory: map<C, V>, schedule: seq<Choice>, m: Machine<C, V>)
    returns (longer: seq<Choice>, end: Machine<C, V>)
    requires Shaped(program, threads) && Reaches(program, threads, memory, schedule, m)
    ensures Reaches(program, threads, memory, longer, end) && end.phase == |program|
    ensures |longer| == |schedule| + StepsLeft(program, threads, m)
    decreases StepsLeft(program, threads, m)
  {
    hide Next, Enabled, StepsLeft;
    if m.phase == |program| {
      longer, end := schedule, m;
      Done(program, threads, m);
    } else {
      SomeChoiceIsEnabled(program, threads, m);
      var choice :| Enabled(program, threads, m, choice);
      Extend(program, threads, memory, schedule, m, choice);
      EveryMoveCounts(program, threads, m, choice);
      longer, end := EveryRunCanFinish(program, threads, memory, schedule + [choice],
                                       Next(program, threads, m, choice));
    }
  }

  lemma Done<C, V>(program: seq<Phase<C, V>>, threads: nat, m: Machine<C, V>)
    requires Fitting(program, threads, m) && m.phase == |program|
    ensures StepsLeft(program, threads, m) == 0
  {}

  // ----- running a program -----

  /** Some thread that can still move, the hinted one if possible; |phase| when none can. */
  method PickThread<C, V>(phase: Phase<C, V>, at: seq<nat>, hint: nat) returns (t: nat)
    requires |phase| == |at| && forall u :: 0 <= u < |at| ==> at[u] <= |phase[u]|
    ensures t <= |phase|
    ensures if t < |phase| then at[t] < |phase[t]| else forall u :: 0 <= u < |phase| ==> at[u] == |phase[u]|
  {
    if hint < |phase| && at[hint] < |phase[hint]| { return hint; }
    t := 0;
    while t < |phase| && at[t] == |phase[t]|
      invariant t <= |phase| && forall u :: 0 <= u < t ==> at[u] == |phase[u]|
    {
      t := t + 1;
    }
  }

  /** Run a program to its end; which thread moves next is left open at every step. */
  method Execute<C(==, !new), V(!new)>(program: seq<Phase<C, V>>, threads: nat, memory: map<C, V>)
    returns (m: Machine<C, V>, ghost schedule: seq<Choice>)
    requires Shaped(program, threads)
    ensures Reaches(program, threads, memory, schedule, m) && m.phase == |program|
  {
    m, schedule := Start(threads, memory), [];
    while m.phase < |program|
      invariant Reaches(program, threads, memory, schedule, m)
      decreases StepsLeft(program, threads, m)
    {
      var hint: nat := *;
      var t := PickThread(program[m.phase], m.at, hint);
      ghost var choice := if t < threads then Thread(t) else Barrier;
      Extend(program, threads, memory, schedule, m, choice);
      EveryMoveCounts(program, threads, m, choice);
      schedule := schedule + [choice];
      if t < threads {
        m := Perform(m, t, program[m.phase][t][m.at[t]]);
      } else {
        m := Cross(m);
      }
    }
  }

  // ----- reading a program from the front -----

  lemma {:induction false} MemoryFromSecond<C, V>(program: seq<Phase<C, V>>, memory: map<C, V>, k: nat)
    requires 0 < |program| && k < |program|
    ensures MemoryAt(program, memory, k + 1) == MemoryAt(program[1..], PhaseEnd(memory, program[0], |program[0]|), k)
  {
    if k != 0 {
      MemoryFromSecond(program, memory, k - 1);
      assert program[1..][k - 1] == program[k];
    }
  }

  lemma {:induction false} LogFromSecond<C, V>(program: seq<Phase<C, V>>, threads: nat, memory: map<C, V>, t: nat,
                                               k: nat)
    requires 0 < |program| && k < |program| && t < threads && Shaped(program, threads)
    ensures LogAt(program, threads, memory, t, k + 1)
         == OwnLog(memory, program[0][t], |program[0][t]|)
            + LogAt(program[1..], threads, PhaseEnd(memory, program[0], |program[0]|), t, k)
  {
    if k == 0 {
      FirstLog(program, threads, memory, t);
    } else {
      hide *;
      LogFromSecond(program, threads, memory, t, k - 1);
      MemoryFromSecond(program, memory, k - 1);
      LogNext(program, threads, memory, t, k + 1);
      SecondShaped(program, threads, k);
      var rest, after := program[1..], PhaseEnd(memory, program[0], |program[0]|);
      LogNext(rest, threads, after, t, k);
      Appends(OwnLog(memory, program[0][t], |program[0][t]|), LogAt(rest, threads, after, t, k - 1),
              OwnLog(MemoryAt(program, memory, k), program[k][t], |program[k][t]|));
    }
  }

  lemma Appends<T>(a: seq<T>, b: seq<T>, c: seq<T>)
    ensures (a + b) + c == a + (b + c)
  {}

  lemma SecondShaped<C, V>(program: seq<Phase<C, V>>, threads: nat, k: nat)
    requires 0 < k < |program| && Shaped(program, threads)
    ensures Shaped(program[1..], threads) && program[1..][k - 1] == program[k]
  {}

  lemma LogNext<C, V>(program: seq<Phase<C, V>>, threads: nat, memory: map<C, V>, t: nat, k: nat)
    requires 0 < k <= |program| && t < threads && Shaped(program, threads)
    ensures LogAt(program, threads, memory, t, k)
         == LogAt(program, threads, memory, t, k - 1)
            + OwnLog(MemoryAt(program, memory, k - 1), program[k - 1][t], |program[k - 1][t]|)
  {
    hide OwnLog, MemoryAt;
  }

  lemma FirstLog<C, V>(program: seq<Phase<C, V>>, threads: nat, memory: map<C, V>, t: nat)
    requires 0 < |program| && t < threads && Shaped(program, threads)
    ensures LogAt(program, threads, memory, t, 1)
         == OwnLog(memory, program[0][t], |program[0][t]|)
            + LogAt(program[1..], threads, PhaseEnd(memory, program[0], |program[0]|), t, 0)
  {
    hide OwnLog, PhaseEnd;
    assert MemoryAt(program, memory, 0) == memory;
    assert LogAt(program, threads, memory, t, 0) == [];
  }

  /** The whole log of one thread. */
  function WholeLog<C(==), V>(program: seq<Phase<C, V>>, threads: nat, memory: map<C, V>, t: nat): seq<Option<V>>
    requires t < threads && forall i :: 0 <= i < |program| ==> |program[i]| == threads
  {
    LogAt(program, threads, memory, t, |program|)
  }

  lemma WholeLogUnfold<C, V>(first: Phase<C, V>, rest: seq<Phase<C, V>>, threads: nat, memory: map<C, V>, t: nat)
    requires t < threads && |first| == threads && Shaped(rest, threads)
    ensures Shaped([first] + rest, threads)
    ensures WholeLog([first] + rest, threads, memory, t)
         == OwnLog(memory, first[t], |first[t]|) + WholeLog(rest, threads, PhaseEnd(memory, first, |first|), t)
  {
    var program := [first] + rest;
    assert program[1..] == rest;
    LogFromSecond(program, threads, memory, t, |rest|);
  }
}
