/** The oracle's experiment, decided for every input: both kernels from the same state. */
module GdnOracle {
  import opened Layout
  import opened GdnProblem
  import opened GdnFlat
  import opened GdnRecurrent
  import opened GdnChunkwise
  import opened ExpLog

  /** Running the token recurrence and the chunkwise kernel on copies of one state leaves equal
      states and equal outputs, cell for cell. */
  method Compare(p: Problem, chunk: nat, initial: array<real>, scale: real, log: real -> real, exp: real -> real)
    returns (recurrentState: array<real>, chunkState: array<real>, recurrentOutput: array<real>,
             chunkOutput: array<real>)
    requires p.Valid() && initial.Length == p.valueHeads * Area(p.size)
    requires 0 < chunk && p.tokens % chunk == 0
    requires Exponential(exp) && Invertible(p, log, exp)
    ensures recurrentState[..] == chunkState[..]
    ensures recurrentOutput[..] == chunkOutput[..]
    ensures Computed(p, scale, initial[..], chunkState[..], chunkOutput[..])
  {
    hide Recurred, Computed, Area, Invertible, Exponential;
    recurrentState := Copy(initial);
    chunkState := Copy(initial);
    recurrentOutput := Recurrent(p, recurrentState, scale);
    assert chunkState[..] == initial[..];
    chunkOutput := Chunkwise(p, chunk, chunkState, scale, log, exp);
    assert initial[..] == old(initial[..]);
    RecurredIsUnique(p, scale, initial[..], recurrentState[..], recurrentOutput[..], chunkState[..], chunkOutput[..]);
  }

  method Copy(a: array<real>) returns (b: array<real>)
    ensures fresh(b) && b[..] == a[..]
  {
    b := new real[a.Length](i requires 0 <= i < a.Length reads a => a[i]);
  }

  /** Two chunk lengths that divide the token count agree. */
  method ChunkLengthIsIrrelevant(p: Problem, chunk: nat, chunk': nat, state: array<real>, state': array<real>,
                                 scale: real, log: real -> real, exp: real -> real)
    returns (output: array<real>, output': array<real>)
    requires p.Valid() && state.Length == p.valueHeads * Area(p.size) && state != state' && state[..] == state'[..]
    requires 0 < chunk && p.tokens % chunk == 0 && 0 < chunk' && p.tokens % chunk' == 0
    requires Exponential(exp) && Invertible(p, log, exp)
    modifies state, state'
    ensures state[..] == state'[..] && output[..] == output'[..]
  {
    hide Recurred, Computed, Area, Invertible, Exponential;
    ghost var initial := state[..];
    output := Chunkwise(p, chunk, state, scale, log, exp);
    assert state'[..] == initial;
    ghost var final := state[..];
    output' := Chunkwise(p, chunk', state', scale, log, exp);
    assert state[..] == final;
    RecurredIsUnique(p, scale, initial, state[..], output[..], state'[..], output'[..]);
  }
}
