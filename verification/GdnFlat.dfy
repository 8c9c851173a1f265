/** The gated delta rule entry by entry on the flat buffers, with the source's own index expressions.
    It shares no address and no vector operation with the kernels, which are proved to compute it. */
module GdnFlat {
  import opened LinearAlgebra
  import opened Layout
  import opened FlatBuffer
  import opened GdnRecurrence
  import opened GdnProblem

  // ----- the buffers, cell by cell -----

  lemma ScalarInside(head: nat, heads: nat, token: nat, tokens: nat)
    requires head < heads && token < tokens
    ensures head * tokens + token < heads * tokens
  {
    AtBound(head, heads, token, tokens);
  }

  function KeyCell(p: Problem, head: nat, token: nat, d: nat): real
    requires p.Valid() && token < p.tokens && d < p.size
  {
    FlatCell(p.key, p.keyHeads, p.tokens, p.size, head % p.keyHeads, token, d)
  }

  function QueryCell(p: Problem, head: nat, token: nat, d: nat): real
    requires p.Valid() && token < p.tokens && d < p.size
  {
    FlatCell(p.query, p.keyHeads, p.tokens, p.size, head % p.keyHeads, token, d)
  }

  function ValueCell(p: Problem, head: nat, token: nat, d: nat): real
    requires p.Valid() && head < p.valueHeads && token < p.tokens && d < p.size
  {
    FlatCell(p.value, p.valueHeads, p.tokens, p.size, head, token, d)
  }

  function DecayCell(p: Problem, head: nat, token: nat): real
    requires p.Valid() && head < p.valueHeads && token < p.tokens
  {
    ScalarInside(head, p.valueHeads, token, p.tokens);
    p.decay[head * p.tokens + token]
  }

  function BetaCell(p: Problem, head: nat, token: nat): real
    requires p.Valid() && head < p.valueHeads && token < p.tokens
  {
    ScalarInside(head, p.valueHeads, token, p.tokens);
    p.beta[head * p.tokens + token]
  }

  /** Entry [row, dim] of a head's matrix. */
  function StateCell(p: Problem, state: seq<real>, head: nat, row: nat, dim: nat): real
    requires |state| == p.valueHeads * Area(p.size) && head < p.valueHeads && row < p.size && dim < p.size
  {
    StateLength(p.valueHeads, p.size);
    FlatCell(state, p.valueHeads, p.size, p.size, head, row, dim)
  }

  lemma StateLength(heads: nat, size: nat)
    ensures heads * Area(size) == heads * size * size
  {}

  lemma StateAddress(head: nat, row: nat, dim: nat, size: nat)
    ensures (head * size + row) * size + dim == HeadBase(size, head) + At(row, dim, size)
  {
    assert (head * size + row) * size == head * size * size + row * size;
    StateLength(head, size);
  }

  // ----- the recurrence, entry by entry -----

  /** Entry [row, dim] of a head's state after `n` tokens: the decayed entry plus the key's part of
      the correction. */
  function Entry(p: Problem, initial: seq<real>, head: nat, row: nat, dim: nat, n: nat): real
    requires p.Valid() && |initial| == p.valueHeads * Area(p.size)
    requires head < p.valueHeads && row < p.size && dim < p.size && n <= p.tokens
    decreases n, 0, 0
  {
    if n == 0 then StateCell(p, initial, head, row, dim)
    else
      DecayCell(p, head, n - 1) * Entry(p, initial, head, row, dim, n - 1)
      + Correction(p, initial, head, dim, n - 1) * KeyCell(p, head, n - 1, row)
  }

  /** What the first `rows` rows of the decayed state predict for the token's key. */
  function Predicted(p: Problem, initial: seq<real>, head: nat, dim: nat, token: nat, rows: nat): real
    requires p.Valid() && |initial| == p.valueHeads * Area(p.size)
    requires head < p.valueHeads && dim < p.size && token < p.tokens && rows <= p.size
    decreases token, 1, rows
  {
    if rows == 0 then 0.0
    else
      Predicted(p, initial, head, dim, token, rows - 1)
      + DecayCell(p, head, token) * Entry(p, initial, head, rows - 1, dim, token) * KeyCell(p, head, token, rows - 1)
  }

  /** The value the token carries less the prediction, gated by beta. */
  function Correction(p: Problem, initial: seq<real>, head: nat, dim: nat, token: nat): real
    requires p.Valid() && |initial| == p.valueHeads * Area(p.size)
    requires head < p.valueHeads && dim < p.size && token < p.tokens
    decreases token, 2, 0
  {
    (ValueCell(p, head, token, dim) - Predicted(p, initial, head, dim, token, p.size)) * BetaCell(p, head, token)
  }

  /** The query against the first `rows` rows of the state that has consumed the token. */
  function Answer(p: Problem, initial: seq<real>, head: nat, dim: nat, token: nat, rows: nat): real
    requires p.Valid() && |initial| == p.valueHeads * Area(p.size)
    requires head < p.valueHeads && dim < p.size && token < p.tokens && rows <= p.size
  {
    if rows == 0 then 0.0
    else
      Answer(p, initial, head, dim, token, rows - 1)
      + Entry(p, initial, head, rows - 1, dim, token + 1) * QueryCell(p, head, token, rows - 1)
  }

  function OutputCell(p: Problem, initial: seq<real>, scale: real, head: nat, token: nat, dim: nat): real
    requires p.Valid() && |initial| == p.valueHeads * Area(p.size)
    requires head < p.valueHeads && dim < p.size && token < p.tokens
  {
    Answer(p, initial, head, dim, token, p.size) * scale
  }

  // ----- it is the recurrence of the columns -----

  lemma TokenCells(p: Problem, head: nat, dim: nat, token: nat, d: nat)
    requires p.Valid() && head < p.valueHeads && dim < p.size && token < p.tokens && d < p.size
    ensures var t := TokenOf(p, head, dim, token);
      && t.decay == DecayCell(p, head, token) && t.beta == BetaCell(p, head, token)
      && t.value == ValueCell(p, head, token, dim)
      && t.key[d] == KeyCell(p, head, token, d) && t.query[d] == QueryCell(p, head, token, d)
  {
    SharedHead(p, head);
  }

  lemma ColumnCell(p: Problem, state: seq<real>, head: nat, row: nat, dim: nat)
    requires |state| == p.valueHeads * Area(p.size) && head < p.valueHeads && row < p.size && dim < p.size
    ensures ColumnOf(state, p.valueHeads, head, p.size, dim)[row] == StateCell(p, state, head, row, dim)
  {
    StateLength(p.valueHeads, p.size);
    FlatCellIs(state, p.valueHeads, p.size, p.size, head, row, dim);
    StateAddress(head, row, dim, p.size);
    HeadBaseBound(p.size, p.valueHeads, head);
    hide At, Area, HeadBase, FlatCell;
    ColumnEntry(state, HeadBase(p.size, head), p.size, dim, row);
  }

  lemma ScaledEntry(a: real, x: Vec, i: nat, e: real)
    requires i < |x| && x[i] == e
    ensures Scale(a, x)[i] == a * e
  {}

  lemma CorrectedEntry(delta: real, key: Vec, column: Vec, i: nat, k: real, e: real)
    requires |key| == |column| && i < |key| && key[i] == k && column[i] == e
    ensures Axpy(delta, key, column)[i] == e + delta * k
  {}

  lemma StateStarts(p: Problem, initial: seq<real>, head: nat, dim: nat)
    requires p.Valid() && |initial| == p.valueHeads * Area(p.size) && head < p.valueHeads && dim < p.size
    ensures StateAfter(p, initial, head, dim, 0) == ColumnOf(initial, p.valueHeads, head, p.size, dim)
  {
    hide ColumnOf, TokenOf;
  }

  lemma StateSteps(p: Problem, initial: seq<real>, head: nat, dim: nat, token: nat)
    requires p.Valid() && |initial| == p.valueHeads * Area(p.size)
    requires head < p.valueHeads && dim < p.size && token < p.tokens
    ensures var column, t := StateAfter(p, initial, head, dim, token), TokenOf(p, head, dim, token);
      StateAfter(p, initial, head, dim, token + 1) == Axpy(Delta(column, t), t.key, Scale(t.decay, column))
  {
    hide ColumnOf, TokenOf, Delta, Scale, Axpy;
  }

  /** The entries of one column after `n` tokens. */
  ghost predicate EntriesHold(p: Problem, initial: seq<real>, head: nat, dim: nat, n: nat)
    requires p.Valid() && |initial| == p.valueHeads * Area(p.size)
    requires head < p.valueHeads && dim < p.size && n <= p.tokens
  {
    forall row :: 0 <= row < p.size ==>
      StateAfter(p, initial, head, dim, n)[row] == Entry(p, initial, head, row, dim, n)
  }

  lemma EntryHolds(p: Problem, initial: seq<real>, head: nat, row: nat, dim: nat, n: nat)
    requires p.Valid() && |initial| == p.valueHeads * Area(p.size)
    requires head < p.valueHeads && row < p.size && dim < p.size && n <= p.tokens
    requires EntriesHold(p, initial, head, dim, n)
    ensures StateAfter(p, initial, head, dim, n)[row] == Entry(p, initial, head, row, dim, n)
  {
    hide StateAfter, Entry;
  }

  lemma PredictedNext(p: Problem, initial: seq<real>, head: nat, dim: nat, token: nat, rows: nat, u: real)
    requires p.Valid() && |initial| == p.valueHeads * Area(p.size)
    requires head < p.valueHeads && dim < p.size && token < p.tokens && 0 < rows <= p.size
    requires u == DecayCell(p, head, token) * Entry(p, initial, head, rows - 1, dim, token)
    ensures Predicted(p, initial, head, dim, token, rows)
         == Predicted(p, initial, head, dim, token, rows - 1) + RealTerm(u, KeyCell(p, head, token, rows - 1))
  {
    hide KeyCell, DecayCell, Entry;
  }

  lemma PredictedNone(p: Problem, initial: seq<real>, head: nat, dim: nat, token: nat)
    requires p.Valid() && |initial| == p.valueHeads * Area(p.size)
    requires head < p.valueHeads && dim < p.size && token < p.tokens
    ensures Predicted(p, initial, head, dim, token, 0) == 0.0 == Answer(p, initial, head, dim, token, 0)
  {}

  lemma {:induction false} PredictedIsDot(p: Problem, initial: seq<real>, head: nat, dim: nat, token: nat, rows: nat)
    requires p.Valid() && |initial| == p.valueHeads * Area(p.size)
    requires head < p.valueHeads && dim < p.size && token < p.tokens && rows <= p.size
    requires EntriesHold(p, initial, head, dim, token)
    ensures var t := TokenOf(p, head, dim, token);
      Dot(Scale(t.decay, StateAfter(p, initial, head, dim, token)), t.key, rows)
      == Predicted(p, initial, head, dim, token, rows)
  {
    hide *;
    var t, column := TokenOf(p, head, dim, token), StateAfter(p, initial, head, dim, token);
    if rows == 0 {
      DotEmpty(Scale(t.decay, column), t.key);
      PredictedNone(p, initial, head, dim, token);
    } else {
      var r := rows - 1;
      PredictedIsDot(p, initial, head, dim, token, r);
      TokenCells(p, head, dim, token, r);
      EntryHolds(p, initial, head, r, dim, token);
      var u := t.decay * Entry(p, initial, head, r, dim, token);
      ScaledEntry(t.decay, column, r, Entry(p, initial, head, r, dim, token));
      SameProduct(t.decay, Entry(p, initial, head, r, dim, token), DecayCell(p, head, token),
                  Entry(p, initial, head, r, dim, token));
      PredictedNext(p, initial, head, dim, token, rows, u);
      DotNext(Scale(t.decay, column), t.key, rows, u, KeyCell(p, head, token, r));
    }
  }

  lemma DeltaIs(column: Vec, t: Token, predicted: real)
    requires |t.key| == |column| && Dot(Scale(t.decay, column), t.key, |column|) == predicted
    ensures Delta(column, t) == (t.value - predicted) * t.beta
  {
    hide Dot, Scale;
    var rest := t.value - Dot(Scale(t.decay, column), t.key, |column|);
    assert Delta(column, t) == rest * t.beta;
    SameProduct(rest, t.beta, t.value - predicted, t.beta);
  }

  lemma CorrectionIs(p: Problem, initial: seq<real>, head: nat, dim: nat, token: nat, v: real, b: real)
    requires p.Valid() && |initial| == p.valueHeads * Area(p.size)
    requires head < p.valueHeads && dim < p.size && token < p.tokens
    requires v == ValueCell(p, head, token, dim) && b == BetaCell(p, head, token)
    ensures Correction(p, initial, head, dim, token) == (v - Predicted(p, initial, head, dim, token, p.size)) * b
  {
    hide ValueCell, BetaCell, Predicted;
  }

  lemma DeltaIsCorrection(p: Problem, initial: seq<real>, head: nat, dim: nat, token: nat)
    requires p.Valid() && |initial| == p.valueHeads * Area(p.size)
    requires head < p.valueHeads && dim < p.size && token < p.tokens
    requires EntriesHold(p, initial, head, dim, token)
    ensures Delta(StateAfter(p, initial, head, dim, token), TokenOf(p, head, dim, token))
         == Correction(p, initial, head, dim, token)
  {
    hide *;
    var t, column := TokenOf(p, head, dim, token), StateAfter(p, initial, head, dim, token);
    PredictedIsDot(p, initial, head, dim, token, p.size);
    TokenCells(p, head, dim, token, dim);
    DeltaIs(column, t, Predicted(p, initial, head, dim, token, p.size));
    CorrectionIs(p, initial, head, dim, token, t.value, t.beta);
  }

  lemma EntryNext(p: Problem, initial: seq<real>, head: nat, row: nat, dim: nat, token: nat, a: real, u: real, k: real)
    requires p.Valid() && |initial| == p.valueHeads * Area(p.size)
    requires head < p.valueHeads && row < p.size && dim < p.size && token < p.tokens
    requires a == DecayCell(p, head, token) && k == KeyCell(p, head, token, row)
    requires u == Correction(p, initial, head, dim, token)
    ensures Entry(p, initial, head, row, dim, token + 1) == a * Entry(p, initial, head, row, dim, token) + u * k
  {
    hide KeyCell, DecayCell, Correction;
  }

  lemma EntryStarts(p: Problem, initial: seq<real>, head: nat, row: nat, dim: nat)
    requires p.Valid() && |initial| == p.valueHeads * Area(p.size)
    requires head < p.valueHeads && row < p.size && dim < p.size
    ensures Entry(p, initial, head, row, dim, 0) == StateCell(p, initial, head, row, dim)
  {}

  /** The column view after `n` tokens is, entry by entry, the recurrence on the flat buffers. */
  lemma {:induction false} EntriesAre(p: Problem, initial: seq<real>, head: nat, dim: nat, n: nat)
    requires p.Valid() && |initial| == p.valueHeads * Area(p.size)
    requires head < p.valueHeads && dim < p.size && n <= p.tokens
    ensures EntriesHold(p, initial, head, dim, n)
  {
    hide *;
    if n != 0 { EntriesAre(p, initial, head, dim, n - 1); }
    forall row | 0 <= row < p.size
      ensures StateAfter(p, initial, head, dim, n)[row] == Entry(p, initial, head, row, dim, n)
    {
      if n == 0 {
        StateStarts(p, initial, head, dim);
        ColumnCell(p, initial, head, row, dim);
        EntryStarts(p, initial, head, row, dim);
      } else {
        NextEntry(p, initial, head, row, dim, n - 1);
      }
    }
    AllEntries(p, initial, head, dim, n);
  }

  lemma AllEntries(p: Problem, initial: seq<real>, head: nat, dim: nat, n: nat)
    requires p.Valid() && |initial| == p.valueHeads * Area(p.size)
    requires head < p.valueHeads && dim < p.size && n <= p.tokens
    requires forall row :: 0 <= row < p.size ==>
      StateAfter(p, initial, head, dim, n)[row] == Entry(p, initial, head, row, dim, n)
    ensures EntriesHold(p, initial, head, dim, n)
  {
    hide StateAfter, Entry;
  }

  lemma NextEntry(p: Problem, initial: seq<real>, head: nat, row: nat, dim: nat, token: nat)
    requires p.Valid() && |initial| == p.valueHeads * Area(p.size)
    requires head < p.valueHeads && row < p.size && dim < p.size && token < p.tokens
    requires EntriesHold(p, initial, head, dim, token)
    ensures StateAfter(p, initial, head, dim, token + 1)[row] == Entry(p, initial, head, row, dim, token + 1)
  {
    hide *;
    var t, column := TokenOf(p, head, dim, token), StateAfter(p, initial, head, dim, token);
    var before, u := Entry(p, initial, head, row, dim, token), Correction(p, initial, head, dim, token);
    TokenCells(p, head, dim, token, row);
    EntryHolds(p, initial, head, row, dim, token);
    DeltaIsCorrection(p, initial, head, dim, token);
    StateSteps(p, initial, head, dim, token);
    var faded := t.decay * before;
    ScaledEntry(t.decay, column, row, before);
    CorrectedEntry(u, t.key, Scale(t.decay, column), row, t.key[row], faded);
    EntryNext(p, initial, head, row, dim, token, t.decay, u, t.key[row]);
  }

  lemma AnswerNext(p: Problem, initial: seq<real>, head: nat, dim: nat, token: nat, rows: nat)
    requires p.Valid() && |initial| == p.valueHeads * Area(p.size)
    requires head < p.valueHeads && dim < p.size && token < p.tokens && 0 < rows <= p.size
    ensures Answer(p, initial, head, dim, token, rows)
         == Answer(p, initial, head, dim, token, rows - 1)
            + RealTerm(Entry(p, initial, head, rows - 1, dim, token + 1), QueryCell(p, head, token, rows - 1))
  {
    hide QueryCell, Entry;
  }

  lemma {:induction false} AnswerIsDot(p: Problem, initial: seq<real>, head: nat, dim: nat, token: nat, rows: nat)
    requires p.Valid() && |initial| == p.valueHeads * Area(p.size)
    requires head < p.valueHeads && dim < p.size && token < p.tokens && rows <= p.size
    ensures Dot(StateAfter(p, initial, head, dim, token + 1), TokenOf(p, head, dim, token).query, rows)
         == Answer(p, initial, head, dim, token, rows)
  {
    hide *;
    var column, query := StateAfter(p, initial, head, dim, token + 1), TokenOf(p, head, dim, token).query;
    if rows == 0 {
      DotEmpty(column, query);
      PredictedNone(p, initial, head, dim, token);
    } else {
      AnswerIsDot(p, initial, head, dim, token, rows - 1);
      EntriesAre(p, initial, head, dim, token + 1);
      EntryHolds(p, initial, head, rows - 1, dim, token + 1);
      TokenCells(p, head, dim, token, rows - 1);
      AnswerNext(p, initial, head, dim, token, rows);
      DotNext(column, query, rows, Entry(p, initial, head, rows - 1, dim, token + 1),
                     QueryCell(p, head, token, rows - 1));
    }
  }

  lemma OutputIs(p: Problem, initial: seq<real>, scale: real, head: nat, token: nat, dim: nat, answer: real)
    requires p.Valid() && |initial| == p.valueHeads * Area(p.size)
    requires head < p.valueHeads && dim < p.size && token < p.tokens
    requires Dot(StateAfter(p, initial, head, dim, token + 1), TokenOf(p, head, dim, token).query, p.size) == answer
    ensures OutputAt(p, initial, scale, head, token, dim) == answer * scale
  {
    hide ColumnOf, TokenOf, Run, Dot;
    assert Stream(p, head, dim, 0, p.tokens)[token] == TokenOf(p, head, dim, token);
  }

  /** What the recurrence emits is the output cell of the flat definition. */
  lemma OutputIsCell(p: Problem, initial: seq<real>, scale: real, head: nat, token: nat, dim: nat)
    requires p.Valid() && |initial| == p.valueHeads * Area(p.size)
    requires head < p.valueHeads && dim < p.size && token < p.tokens
    ensures OutputAt(p, initial, scale, head, token, dim) == OutputCell(p, initial, scale, head, token, dim)
  {
    hide StateAfter, TokenOf, Answer, OutputAt, Dot;
    AnswerIsDot(p, initial, head, dim, token, p.size);
    OutputIs(p, initial, scale, head, token, dim, Answer(p, initial, head, dim, token, p.size));
  }

  // ----- both buffers -----

  /** Every cell of the final state. */
  ghost predicate StateComputed(p: Problem, initial: seq<real>, final: seq<real>)
    requires p.Valid() && |initial| == p.valueHeads * Area(p.size)
  {
    forall head, row, dim {:trigger Entry(p, initial, head, row, dim, p.tokens)} ::
      0 <= head < p.valueHeads && 0 <= row < p.size && 0 <= dim < p.size ==>
      var i := (head * p.size + row) * p.size + dim;
      0 <= i < |final| && final[i] == Entry(p, initial, head, row, dim, p.tokens)
  }

  /** Every cell of the output. */
  ghost predicate OutputComputed(p: Problem, scale: real, initial: seq<real>, output: seq<real>)
    requires p.Valid() && |initial| == p.valueHeads * Area(p.size)
  {
    forall head, token, dim {:trigger OutputCell(p, initial, scale, head, token, dim)} ::
      0 <= head < p.valueHeads && 0 <= token < p.tokens && 0 <= dim < p.size ==>
      OutputHolds(p, output, head, token, dim, OutputCell(p, initial, scale, head, token, dim))
  }

  ghost predicate Computed(p: Problem, scale: real, initial: seq<real>, final: seq<real>, output: seq<real>)
    requires p.Valid() && |initial| == p.valueHeads * Area(p.size)
  {
    && |final| == |initial| && |output| == p.valueHeads * p.tokens * p.size
    && StateComputed(p, initial, final) && OutputComputed(p, scale, initial, output)
  }

  lemma FinalCell(p: Problem, initial: seq<real>, final: seq<real>, head: nat, row: nat, dim: nat)
    requires p.Valid() && |initial| == |final| == p.valueHeads * Area(p.size)
    requires head < p.valueHeads && row < p.size && dim < p.size
    ensures var i := (head * p.size + row) * p.size + dim;
      0 <= i < |final| && ColumnOf(final, p.valueHeads, head, p.size, dim)[row] == final[i]
    ensures StateAfter(p, initial, head, dim, p.tokens)[row] == Entry(p, initial, head, row, dim, p.tokens)
  {
    StateLength(p.valueHeads, p.size);
    FlatCellIs(final, p.valueHeads, p.size, p.size, head, row, dim);
    hide Entry, StateAfter, ColumnOf, FlatCell, Area;
    ColumnCell(p, final, head, row, dim);
    EntriesAre(p, initial, head, dim, p.tokens);
  }

  lemma FinalColumn(p: Problem, scale: real, initial: seq<real>, final: seq<real>, output: seq<real>, head: nat,
                    dim: nat)
    requires p.Valid() && |initial| == p.valueHeads * Area(p.size)
    requires Computed(p, scale, initial, final, output) && head < p.valueHeads && dim < p.size
    ensures ColumnOf(final, p.valueHeads, head, p.size, dim) == StateAfter(p, initial, head, dim, p.tokens)
  {
    hide ColumnOf, StateAfter, Entry, OutputCell, Area;
    forall row | 0 <= row < p.size
      ensures ColumnOf(final, p.valueHeads, head, p.size, dim)[row] == StateAfter(p, initial, head, dim, p.tokens)[row]
    {
      FinalCell(p, initial, final, head, row, dim);
      var entry := Entry(p, initial, head, row, dim, p.tokens);
    }
  }

  lemma StateIsComputed(p: Problem, scale: real, initial: seq<real>, final: seq<real>, output: seq<real>)
    requires p.Valid() && |initial| == p.valueHeads * Area(p.size)
    requires Recurred(p, scale, initial, final, output)
    ensures StateComputed(p, initial, final)
  {
    hide ColumnOf, StateAfter, Entry, OutputAt, OutputIndex, Area, Recurred;
    forall head, row, dim {:trigger Entry(p, initial, head, row, dim, p.tokens)}
      | 0 <= head < p.valueHeads && 0 <= row < p.size && 0 <= dim < p.size
      ensures var i := (head * p.size + row) * p.size + dim;
        0 <= i < |final| && final[i] == Entry(p, initial, head, row, dim, p.tokens)
    {
      RecurredEntry(p, scale, initial, final, output, head, row, dim);
    }
  }

  lemma RecurredEntry(p: Problem, scale: real, initial: seq<real>, final: seq<real>, output: seq<real>, head: nat,
                      row: nat, dim: nat)
    requires p.Valid() && |initial| == p.valueHeads * Area(p.size)
    requires Recurred(p, scale, initial, final, output) && head < p.valueHeads && row < p.size && dim < p.size
    ensures var i := (head * p.size + row) * p.size + dim;
      0 <= i < |final| && final[i] == Entry(p, initial, head, row, dim, p.tokens)
  {
    hide ColumnOf, StateAfter, Entry, OutputAt, OutputIndex, Area;
    FinalCell(p, initial, final, head, row, dim);
    assert ColumnOf(final, p.valueHeads, head, p.size, dim) == StateAfter(p, initial, head, dim, p.tokens);
  }

  lemma OutputIsComputed(p: Problem, scale: real, initial: seq<real>, final: seq<real>, output: seq<real>)
    requires p.Valid() && |initial| == p.valueHeads * Area(p.size)
    requires Recurred(p, scale, initial, final, output)
    ensures OutputComputed(p, scale, initial, output)
  {
    hide ColumnOf, StateAfter, OutputCell, OutputAt, OutputIndex, OutputHolds, Area;
    forall head, token, dim {:trigger OutputCell(p, initial, scale, head, token, dim)}
      | 0 <= head < p.valueHeads && 0 <= token < p.tokens && 0 <= dim < p.size
      ensures OutputHolds(p, output, head, token, dim, OutputCell(p, initial, scale, head, token, dim))
    {
      OutputHoldsAt(p, output, head, token, dim, OutputCell(p, initial, scale, head, token, dim));
      OutputIsCell(p, initial, scale, head, token, dim);
    }
  }

  /** What the two kernels leave is the flat definition, cell for cell. */
  lemma RecurredIsComputed(p: Problem, scale: real, initial: seq<real>, final: seq<real>, output: seq<real>)
    requires p.Valid() && |initial| == p.valueHeads * Area(p.size)
    requires Recurred(p, scale, initial, final, output)
    ensures Computed(p, scale, initial, final, output)
  {
    hide ColumnOf, StateAfter, OutputAt, OutputIndex, StateComputed, OutputComputed, Area;
    StateIsComputed(p, scale, initial, final, output);
    OutputIsComputed(p, scale, initial, final, output);
  }

  /** ... and nothing else: the column view and the flat definition allow the same buffers. */
  lemma ComputedIsRecurred(p: Problem, scale: real, initial: seq<real>, final: seq<real>, output: seq<real>)
    requires p.Valid() && |initial| == p.valueHeads * Area(p.size)
    requires Computed(p, scale, initial, final, output)
    ensures Recurred(p, scale, initial, final, output)
  {
    hide ColumnOf, StateAfter, Entry, OutputCell, OutputAt, OutputIndex, OutputHolds, Area;
    forall head, dim | 0 <= head < p.valueHeads && 0 <= dim < p.size
      ensures ColumnOf(final, p.valueHeads, head, p.size, dim) == StateAfter(p, initial, head, dim, p.tokens)
    {
      FinalColumn(p, scale, initial, final, output, head, dim);
    }
    forall head, token, dim | 0 <= head < p.valueHeads && 0 <= token < p.tokens && 0 <= dim < p.size
      ensures OutputIndex(p, head, token, dim) < |output|
      ensures output[OutputIndex(p, head, token, dim)] == OutputAt(p, initial, scale, head, token, dim)
    {
      OutputHoldsAt(p, output, head, token, dim, OutputCell(p, initial, scale, head, token, dim));
      OutputIsCell(p, initial, scale, head, token, dim);
    }
  }
}
