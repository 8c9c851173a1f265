/** The token-by-token kernel, updating every head's state matrix in place. */
module GdnRecurrent {
  import opened LinearAlgebra
  import opened Layout
  import opened GdnRecurrence
  import opened GdnProblem
  import opened GdnFlat
  import opened GdnProgress

  /** Only column `dim` of the matrix at `base` may differ. */
  ghost predicate SameElsewhere(s: seq<real>, s': seq<real>, base: nat, size: nat, dim: nat)
    requires |s| == |s'| && base + Area(size) <= |s|
  {
    && (forall j :: 0 <= j < size && j != dim ==> ColumnAt(s', base, size, j) == ColumnAt(s, base, size, j))
    && SameOutside(s, s', base, base + Area(size))
  }

  lemma SameElsewhereReflexive(s: seq<real>, base: nat, size: nat, dim: nat)
    requires base + Area(size) <= |s|
    ensures SameElsewhere(s, s, base, size, dim)
  {}

  lemma SameElsewhereTransitive(s: seq<real>, s': seq<real>, s'': seq<real>, base: nat, size: nat, dim: nat)
    requires |s| == |s'| == |s''| && base + Area(size) <= |s|
    requires SameElsewhere(s, s', base, size, dim) && SameElsewhere(s', s'', base, size, dim)
    ensures SameElsewhere(s, s'', base, size, dim)
  {
    hide ColumnAt;
  }

  /** No other cell of the matrix shares the address of (row, dim). */
  lemma AddressesDistinct(row: nat, dim: nat, size: nat)
    requires row < size && dim < size
    ensures At(row, dim, size) < Area(size)
    ensures forall r, j :: 0 <= r < size && 0 <= j < size && (r != row || j != dim) ==>
      At(r, j, size) != At(row, dim, size)
  {
    AtBound(row, size, dim, size);
    forall r, j | 0 <= r < size && 0 <= j < size && (r != row || j != dim)
      ensures At(r, j, size) != At(row, dim, size)
    {
      AtInjective(r, j, row, dim, size);
    }
  }

  lemma WriteEntry(s: seq<real>, base: nat, size: nat, row: nat, dim: nat, x: real)
    requires row < size && dim < size && base + Area(size) <= |s|
    requires base + At(row, dim, size) < |s|
    ensures var s' := s[base + At(row, dim, size) := x];
      && ColumnAt(s', base, size, dim) == ColumnAt(s, base, size, dim)[row := x]
      && SameElsewhere(s, s', base, size, dim)
  {
    AddressesDistinct(row, dim, size);
    hide At, Area;
    var s' := s[base + At(row, dim, size) := x];
    forall j | 0 <= j < size && j != dim
      ensures ColumnAt(s', base, size, j) == ColumnAt(s, base, size, j)
    {
      forall r | 0 <= r < size ensures ColumnAt(s', base, size, j)[r] == ColumnAt(s, base, size, j)[r] {
        assert At(r, j, size) != At(row, dim, size);
        ColumnEntry(s, base, size, j, r);
        ColumnEntry(s', base, size, j, r);
      }
    }
    forall r | 0 <= r < size
      ensures ColumnAt(s', base, size, dim)[r] == ColumnAt(s, base, size, dim)[row := x][r]
    {
      if r != row { assert At(r, dim, size) != At(row, dim, size); }
      ColumnEntry(s, base, size, dim, r);
      ColumnEntry(s', base, size, dim, r);
    }
  }

  /** state[at(row, dim)] := x, seen as a write into one entry of one column. */
  method SetEntry(state: array<real>, base: nat, size: nat, row: nat, dim: nat, x: real)
    requires row < size && dim < size && base + Area(size) <= state.Length
    modifies state
    ensures ColumnAt(state[..], base, size, dim) == ColumnAt(old(state[..]), base, size, dim)[row := x]
    ensures SameElsewhere(old(state[..]), state[..], base, size, dim)
  {
    ghost var s := state[..];
    AtBound(row, size, dim, size);
    WriteEntry(s, base, size, row, dim, x);
    state[base + At(row, dim, size)] := x;
    assert state[..] == s[base + At(row, dim, size) := x];
  }

  method GetEntry(state: array<real>, base: nat, size: nat, row: nat, dim: nat) returns (x: real)
    requires row < size && dim < size && base + Area(size) <= state.Length
    ensures x == ColumnAt(state[..], base, size, dim)[row]
  {
    ColumnEntry(state[..], base, size, dim, row);
    x := state[base + At(row, dim, size)];
  }

  /** state[at(row, dim)] *= decay */
  method DecayEntry(state: array<real>, base: nat, size: nat, row: nat, dim: nat, decay: real) returns (x: real)
    requires row < size && dim < size && base + Area(size) <= state.Length
    modifies state
    ensures x == Scale(decay, ColumnAt(old(state[..]), base, size, dim))[row]
    ensures ColumnAt(state[..], base, size, dim) == ColumnAt(old(state[..]), base, size, dim)[row := x]
    ensures SameElsewhere(old(state[..]), state[..], base, size, dim)
  {
    hide *;
    ScaleAt(decay, ColumnAt(state[..], base, size, dim), row);
    x := GetEntry(state, base, size, row, dim);
    x := x * decay;
    SetEntry(state, base, size, row, dim, x);
  }

  /** Decay one state column and read it with the key. */
  method DecayColumn(state: array<real>, base: nat, size: nat, dim: nat, decay: real, key: Vec) returns (keyDot: real)
    requires dim < size && base + Area(size) <= state.Length && |key| == size
    modifies state
    ensures ColumnAt(state[..], base, size, dim) == Scale(decay, ColumnAt(old(state[..]), base, size, dim))
    ensures SameElsewhere(old(state[..]), state[..], base, size, dim)
    ensures keyDot == Dot(Scale(decay, ColumnAt(old(state[..]), base, size, dim)), key, size)
  {
    hide *;
    ghost var start, column := state[..], ColumnAt(state[..], base, size, dim);
    ghost var decayed := Scale(decay, column);
    DotEmpty(decayed, key);
    SplicedEnds(decayed, column);
    SameElsewhereReflexive(start, base, size, dim);
    keyDot := 0.0;
    for c := 0 to size
      invariant ColumnAt(state[..], base, size, dim) == Spliced(decayed, column, c)
      invariant SameElsewhere(start, state[..], base, size, dim)
      invariant keyDot == Dot(decayed, key, c)
    {
      ghost var before := state[..];
      SplicedNext(decayed, column, c);
      ScaleLocal(decay, ColumnAt(before, base, size, dim), column, c);
      var x := DecayEntry(state, base, size, c, dim, decay);
      SameElsewhereTransitive(start, before, state[..], base, size, dim);
      keyDot := Accumulate(keyDot, x, key[c], decayed, key, c);
    }
  }

  /** state[at(row, dim)] += delta * key[row] */
  method CorrectEntry(state: array<real>, base: nat, size: nat, row: nat, dim: nat, delta: real, key: Vec)
    returns (x: real)
    requires row < size && dim < size && base + Area(size) <= state.Length && |key| == size
    modifies state
    ensures x == Axpy(delta, key, ColumnAt(old(state[..]), base, size, dim))[row]
    ensures ColumnAt(state[..], base, size, dim) == ColumnAt(old(state[..]), base, size, dim)[row := x]
    ensures SameElsewhere(old(state[..]), state[..], base, size, dim)
  {
    hide *;
    AxpyAt(delta, key, ColumnAt(state[..], base, size, dim), row);
    x := GetEntry(state, base, size, row, dim);
    x := x + delta * key[row];
    SetEntry(state, base, size, row, dim, x);
  }

  /** Add the rank-one correction along the key. */
  method CorrectColumn(state: array<real>, base: nat, size: nat, dim: nat, delta: real, key: Vec)
    requires dim < size && base + Area(size) <= state.Length && |key| == size
    modifies state
    ensures ColumnAt(state[..], base, size, dim) == Axpy(delta, key, ColumnAt(old(state[..]), base, size, dim))
    ensures SameElsewhere(old(state[..]), state[..], base, size, dim)
  {
    hide *;
    ghost var start, column := state[..], ColumnAt(state[..], base, size, dim);
    ghost var corrected := Axpy(delta, key, column);
    SplicedEnds(corrected, column);
    SameElsewhereReflexive(start, base, size, dim);
    for c := 0 to size
      invariant ColumnAt(state[..], base, size, dim) == Spliced(corrected, column, c)
      invariant SameElsewhere(start, state[..], base, size, dim)
    {
      ghost var before := state[..];
      SplicedNext(corrected, column, c);
      AxpyLocal(delta, key, ColumnAt(before, base, size, dim), column, c);
      var _ := CorrectEntry(state, base, size, c, dim, delta, key);
      SameElsewhereTransitive(start, before, state[..], base, size, dim);
    }
  }

  /** One token's effect on one state column (one iteration of the row loop). */
  method StepColumn(state: array<real>, base: nat, size: nat, dim: nat, token: Token)
    requires dim < size && base + Area(size) <= state.Length && |token.key| == size
    modifies state
    ensures ColumnAt(state[..], base, size, dim) == Step(ColumnAt(old(state[..]), base, size, dim), token)
    ensures SameElsewhere(old(state[..]), state[..], base, size, dim)
  {
    hide At, Area, ColumnAt, Scale, Axpy, Dot, SameElsewhere;
    ghost var start := state[..];
    var keyDot := DecayColumn(state, base, size, dim, token.decay, token.key);
    ghost var middle := state[..];
    var delta := (token.value - keyDot) * token.beta;
    assert delta == Delta(ColumnAt(start, base, size, dim), token);
    CorrectColumn(state, base, size, dim, delta, token.key);
    SameElsewhereTransitive(start, middle, state[..], base, size, dim);
  }

  /** One token's effect on a whole head: every column steps, no cell outside the head's
      slice of the state buffer is touched. */
  method StepHead(p: Problem, state: array<real>, head: nat, token: nat)
    requires p.Valid() && head < p.valueHeads && token < p.tokens
    requires HeadBase(p.size, head) + Area(p.size) <= state.Length
    modifies state
    ensures forall j {:trigger TokenOf(p, head, j, token)} :: 0 <= j < p.size ==>
      ColumnAt(state[..], HeadBase(p.size, head), p.size, j)
        == Step(ColumnAt(old(state[..]), HeadBase(p.size, head), p.size, j), TokenOf(p, head, j, token))
    ensures SameOutside(old(state[..]), state[..], HeadBase(p.size, head), HeadBase(p.size, head) + Area(p.size))
  {
    hide At, Area, ColumnAt, HeadBase, TokenBase, Step, KeyOf, ValueOf, QueryOf, DecayOf, BetaOf, SameOutside;
    ghost var start := state[..];
    var base := HeadBase(p.size, head);
    SameOutsideReflexive(start, base, base + Area(p.size));
    for row := 0 to p.size
      invariant forall j {:trigger TokenOf(p, head, j, token)} :: 0 <= j < row ==>
        ColumnAt(state[..], base, p.size, j) == Step(ColumnAt(start, base, p.size, j), TokenOf(p, head, j, token))
      invariant forall j :: row <= j < p.size ==>
        ColumnAt(state[..], base, p.size, j) == ColumnAt(start, base, p.size, j)
      invariant SameOutside(start, state[..], base, base + Area(p.size))
    {
      ghost var before := state[..];
      StepColumn(state, base, p.size, row, TokenOf(p, head, row, token));
      SameOutsideTransitive(start, before, state[..], base, base + Area(p.size));
    }
  }

  method Rescale(total: real, scale: real, ghost column: Vec, ghost query: Vec) returns (r: real)
    requires |query| == |column| && total == Dot(column, query, |column|)
    ensures r == ReadOut(column, query, scale)
  {
    r := total * scale;
  }

  /** One output cell: accumulate the query's view of a state column in place, then scale. */
  method EmitCell(state: array<real>, base: nat, size: nat, dim: nat, query: Vec, scale: real,
                  output: array<real>, cell: nat)
    requires dim < size && base + Area(size) <= state.Length && |query| == size
    requires state != output && cell < output.Length && output[cell] == 0.0
    modifies output
    ensures output[..] == old(output[..])[cell := ReadOut(ColumnAt(state[..], base, size, dim), query, scale)]
  {
    hide *;
    ghost var column := ColumnAt(state[..], base, size, dim);
    DotEmpty(column, query);
    for c := 0 to size
      invariant state[..] == old(state[..])
      invariant output[cell] == Dot(column, query, c)
      invariant output[..] == old(output[..])[cell := output[cell]]
    {
      var x := GetEntry(state, base, size, c, dim);
      var sum := Accumulate(output[cell], x, query[c], column, query, c);
      output[cell] := sum;
    }
    var scaled := Rescale(output[cell], scale, column, query);
    output[cell] := scaled;
    assert state[..] == old(state[..]);
  }

  /** One token's outputs for a whole head. */
  method EmitHead(p: Problem, state: array<real>, head: nat, token: nat, scale: real, output: array<real>)
    requires p.Valid() && head < p.valueHeads && token < p.tokens && state != output
    requires HeadBase(p.size, head) + Area(p.size) <= state.Length
    requires TokenBase(p, head, token) + p.size <= output.Length
    requires forall j :: 0 <= j < p.size ==> output[OutputIndex(p, head, token, j)] == 0.0
    modifies output
    ensures forall j :: 0 <= j < p.size ==>
      OutputHolds(p, output[..], head, token, j,
                  ReadOut(ColumnAt(state[..], HeadBase(p.size, head), p.size, j), QueryOf(p, head, token), scale))
    ensures SameOutside(old(output[..]), output[..], TokenBase(p, head, token), TokenBase(p, head, token) + p.size)
  {
    hide At, Area, ColumnAt, HeadBase, TokenBase, QueryOf, ReadOut, OutputHolds;
    var base, start := HeadBase(p.size, head), TokenBase(p, head, token);
    ghost var before, query := state[..], QueryOf(p, head, token);
    for row := 0 to p.size
      invariant state[..] == before
      invariant forall j :: 0 <= j < row ==>
        output[OutputIndex(p, head, token, j)] == ReadOut(ColumnAt(before, base, p.size, j), query, scale)
      invariant forall j :: row <= j < p.size ==> output[OutputIndex(p, head, token, j)] == 0.0
      invariant SameOutside(old(output[..]), output[..], start, start + p.size)
    {
      ghost var out := output[..];
      var cell := OutputIndex(p, head, token, row);
      EmitCell(state, base, p.size, row, QueryOf(p, head, token), scale, output, cell);
      forall i | 0 <= i < output.Length && i != cell ensures output[i] == out[i] {
        assert output[..][i] == out[i];
      }
      assert output[..][cell] == output[cell];
    }
    forall j | 0 <= j < p.size
      ensures OutputHolds(p, output[..], head, token, j, ReadOut(ColumnAt(before, base, p.size, j), query, scale))
    {
      hide OutputIndex, OutputHolds;
      assert output[..][OutputIndex(p, head, token, j)] == output[OutputIndex(p, head, token, j)];
      OutputHoldsAt(p, output[..], head, token, j, ReadOut(ColumnAt(before, base, p.size, j), query, scale));
    }
  }

  /** What one token does to a head is one step of each of its columns. */
  lemma StepIsRun(p: Problem, initial: seq<real>, head: nat, dim: nat, token: nat)
    requires p.Valid() && |initial| == p.valueHeads * Area(p.size)
    requires head < p.valueHeads && dim < p.size && token < p.tokens
    ensures StateAfter(p, initial, head, dim, token + 1)
         == Step(StateAfter(p, initial, head, dim, token), TokenOf(p, head, dim, token))
  {
    hide ColumnOf, Step, TokenOf;
  }

  lemma OutputIsReadOut(p: Problem, initial: seq<real>, scale: real, head: nat, dim: nat, token: nat)
    requires p.Valid() && |initial| == p.valueHeads * Area(p.size)
    requires head < p.valueHeads && dim < p.size && token < p.tokens
    ensures OutputAt(p, initial, scale, head, token, dim)
         == ReadOut(StateAfter(p, initial, head, dim, token + 1), QueryOf(p, head, token), scale)
  {
    hide ColumnOf, Run, ReadOut;
  }

  /** The state half of one token through one head. */
  method UpdateHead(p: Problem, state: array<real>, head: nat, token: nat, ghost initial: seq<real>)
    requires p.Valid() && |initial| == state.Length == p.valueHeads * Area(p.size)
    requires head < p.valueHeads && token < p.tokens
    requires StateProgress(p, initial, state[..], token, token + 1, head)
    modifies state
    ensures StateProgress(p, initial, state[..], token, token + 1, head + 1)
  {
    hide At, Area, ColumnAt, HeadBase, Step, StateAfter, TokenOf, SameOutside;
    HeadBaseBound(p.size, p.valueHeads, head);
    ghost var s := state[..];
    StepHead(p, state, head, token);
    forall dim {:trigger ColumnOf(state[..], p.valueHeads, head, p.size, dim)} | 0 <= dim < p.size
      ensures ColumnOf(state[..], p.valueHeads, head, p.size, dim) == StateAfter(p, initial, head, dim, token + 1)
    {
      assert ColumnOf(s, p.valueHeads, head, p.size, dim) == StateAfter(p, initial, head, dim, token);
      StepIsRun(p, initial, head, dim, token);
      assert TokenOf(p, head, dim, token) == TokenOf(p, head, dim, token);
    }
    AdvanceState(p, initial, s, state[..], token, token + 1, head);
  }

  /** The output half: it reads the state slice that has just consumed the token. */
  method OutputHead(p: Problem, state: array<real>, output: array<real>, scale: real, head: nat, token: nat,
                    ghost initial: seq<real>)
    requires p.Valid() && |initial| == state.Length == p.valueHeads * Area(p.size)
    requires state != output && output.Length == p.valueHeads * p.tokens * p.size
    requires head < p.valueHeads && token < p.tokens
    requires StateProgress(p, initial, state[..], token, token + 1, head + 1)
    requires OutputProgress(p, scale, initial, output[..], token, token + 1, head)
    requires OutputPending(p, output[..], token, token + 1, head)
    modifies output
    ensures OutputProgress(p, scale, initial, output[..], token, token + 1, head + 1)
    ensures OutputPending(p, output[..], token, token + 1, head + 1)
  {
    hide At, Area, ColumnAt, HeadBase, TokenBase, QueryOf, ReadOut, StateAfter, OutputAt, OutputHolds, SameOutside;
    HeadBaseBound(p.size, p.valueHeads, head);
    TokenBaseBound(p, p.valueHeads, head, token);
    ghost var s, o := state[..], output[..];
    forall j | 0 <= j < p.size ensures output[OutputIndex(p, head, token, j)] == 0.0 {
      assert o[OutputIndex(p, head, token, j)] == 0.0;
    }
    EmitHead(p, state, head, token, scale, output);
    assert state[..] == s;
    forall t, dim {:trigger OutputIndex(p, head, t, dim)} | token <= t < token + 1 && 0 <= dim < p.size
      ensures OutputIndex(p, head, t, dim) < |output[..]|
           && output[..][OutputIndex(p, head, t, dim)] == OutputAt(p, initial, scale, head, t, dim)
    {
      assert ColumnOf(s, p.valueHeads, head, p.size, dim) == StateAfter(p, initial, head, dim, token + 1);
      OutputHoldsAt(p, output[..], head, token, dim, OutputAt(p, initial, scale, head, token, dim));
      OutputIsReadOut(p, initial, scale, head, dim, token);
    }
    assert (token + 1 - token) * p.size == p.size;
    AdvanceOutput(p, scale, initial, o, output[..], token, token + 1, head);
    KeepPending(p, o, output[..], token, token + 1, head);
  }

  /** The token recurrence over all heads. */
  method Recurrent(p: Problem, state: array<real>, scale: real) returns (output: array<real>)
    requires p.Valid() && state.Length == p.valueHeads * Area(p.size)
    modifies state
    ensures fresh(output)
    ensures Recurred(p, scale, old(state[..]), state[..], output[..])
    ensures Computed(p, scale, old(state[..]), state[..], output[..])
  {
    hide Area, StateAfter, OutputAt, ColumnOf, StateProgress, OutputProgress, OutputPending, Recurred, OutputIndex,
         Computed;
    ghost var initial := state[..];
    output := new real[p.valueHeads * p.tokens * p.size](i => 0.0);
    Begin(p, scale, initial, output[..], 0);
    AllPending(p, output[..]);
    for token := 0 to p.tokens
      invariant StateProgress(p, initial, state[..], token, token, 0)
      invariant OutputProgress(p, scale, initial, output[..], token, token, 0)
      invariant OutputPending(p, output[..], token, token, 0)
    {
      NextRound(p, scale, initial, state[..], output[..], token, token, token + 1);
      NextPending(p, output[..], token, token, token + 1);
      for head := 0 to p.valueHeads
        invariant StateProgress(p, initial, state[..], token, token + 1, head)
        invariant OutputProgress(p, scale, initial, output[..], token, token + 1, head)
        invariant OutputPending(p, output[..], token, token + 1, head)
      {
        UpdateHead(p, state, head, token, initial);
        OutputHead(p, state, output, scale, head, token, initial);
      }
      NextRound(p, scale, initial, state[..], output[..], token, token + 1, token + 1);
      NextPending(p, output[..], token, token + 1, token + 1);
    }
    Finish(p, scale, initial, state[..], output[..]);
    RecurredIsComputed(p, scale, initial, state[..], output[..]);
  }

  lemma AllPending(p: Problem, output: seq<real>)
    requires |output| == p.valueHeads * p.tokens * p.size && forall i :: 0 <= i < |output| ==> output[i] == 0.0
    ensures OutputPending(p, output, 0, 0, 0)
  {
    hide OutputIndex;
    forall h, t, dim | 0 <= h < p.valueHeads && 0 <= t < p.tokens && 0 <= dim < p.size
      ensures OutputIndex(p, h, t, dim) < |output| && output[OutputIndex(p, h, t, dim)] == 0.0
    {
      OutputCellInside(p, h, t, dim);
    }
  }
}
