/** What both kernels keep true between heads: heads before `head` have consumed the tokens
    below `hi`, the others the tokens below `lo`. */
module GdnProgress {
  import opened Layout
  import opened GdnProblem

  ghost predicate SameOutside(s: seq<real>, s': seq<real>, lo: int, hi: int)
    requires |s| == |s'|
  {
    forall i :: 0 <= i < |s| && !(lo <= i < hi) ==> s'[i] == s[i]
  }

  lemma SameOutsideReflexive(s: seq<real>, lo: nat, hi: nat)
    ensures SameOutside(s, s, lo, hi)
  {}

  lemma SameOutsideTransitive(s: seq<real>, s': seq<real>, s'': seq<real>, lo: nat, hi: nat)
    requires |s| == |s'| == |s''| && SameOutside(s, s', lo, hi) && SameOutside(s', s'', lo, hi)
    ensures SameOutside(s, s'', lo, hi)
  {}

  function Consumed(h: nat, head: nat, lo: nat, hi: nat): nat { if h < head then hi else lo }

  /** The state buffer in mid-run. */
  ghost predicate StateProgress(p: Problem, initial: seq<real>, state: seq<real>, lo: nat, hi: nat, head: nat)
    requires p.Valid() && |initial| == |state| == p.valueHeads * Area(p.size)
    requires lo <= hi <= p.tokens
  {
    forall h, dim {:trigger ColumnOf(state, p.valueHeads, h, p.size, dim)} ::
      0 <= h < p.valueHeads && 0 <= dim < p.size ==>
        ColumnOf(state, p.valueHeads, h, p.size, dim) == StateAfter(p, initial, h, dim, Consumed(h, head, lo, hi))
  }

  /** The output buffer in mid-run: finished tokens hold their outputs. */
  ghost predicate OutputProgress(p: Problem, scale: real, initial: seq<real>, output: seq<real>, lo: nat, hi: nat,
                                 head: nat)
    requires p.Valid() && |initial| == p.valueHeads * Area(p.size)
    requires lo <= hi <= p.tokens
  {
    forall h, t, dim {:trigger OutputIndex(p, h, t, dim)} ::
      0 <= h < p.valueHeads && 0 <= t < Consumed(h, head, lo, hi) && 0 <= dim < p.size ==>
        OutputIndex(p, h, t, dim) < |output|
        && output[OutputIndex(p, h, t, dim)] == OutputAt(p, initial, scale, h, t, dim)
  }

  /** ... and the others are still zero. */
  ghost predicate OutputPending(p: Problem, output: seq<real>, lo: nat, hi: nat, head: nat)
    requires lo <= hi <= p.tokens
  {
    forall h, t, dim {:trigger OutputIndex(p, h, t, dim)} ::
      0 <= h < p.valueHeads && Consumed(h, head, lo, hi) <= t < p.tokens && 0 <= dim < p.size ==>
        OutputIndex(p, h, t, dim) < |output| && output[OutputIndex(p, h, t, dim)] == 0.0
  }

  /** A head's slice can be rewritten without disturbing another head's columns. */
  lemma ColumnUnaffected(s: seq<real>, s': seq<real>, heads: nat, head: nat, other: nat, size: nat, dim: nat)
    requires |s| == |s'| == heads * Area(size) && head < heads && other < heads && head != other && dim < size
    requires SameOutside(s, s', HeadBase(size, head), HeadBase(size, head) + Area(size))
    ensures ColumnOf(s', heads, other, size, dim) == ColumnOf(s, heads, other, size, dim)
  {
    HeadBaseBound(size, heads, other);
    if head < other { RowsDisjoint(head, other, Area(size)); } else { RowsDisjoint(other, head, Area(size)); }
    forall r | 0 <= r < size
      ensures ColumnAt(s', HeadBase(size, other), size, dim)[r] == ColumnAt(s, HeadBase(size, other), size, dim)[r]
    {
      AtBound(r, size, dim, size);
      ColumnEntry(s, HeadBase(size, other), size, dim, r);
      ColumnEntry(s', HeadBase(size, other), size, dim, r);
    }
  }

  /** Advancing one head's columns advances the state buffer. */
  lemma AdvanceState(p: Problem, initial: seq<real>, s: seq<real>, s': seq<real>, lo: nat, hi: nat, head: nat)
    requires p.Valid() && |initial| == |s| == |s'| == p.valueHeads * Area(p.size)
    requires lo <= hi <= p.tokens && head < p.valueHeads
    requires StateProgress(p, initial, s, lo, hi, head)
    requires SameOutside(s, s', HeadBase(p.size, head), HeadBase(p.size, head) + Area(p.size))
    requires forall dim {:trigger ColumnOf(s', p.valueHeads, head, p.size, dim)} :: 0 <= dim < p.size ==>
      ColumnOf(s', p.valueHeads, head, p.size, dim) == StateAfter(p, initial, head, dim, hi)
    ensures StateProgress(p, initial, s', lo, hi, head + 1)
  {
    hide ColumnOf, StateAfter, SameOutside, HeadBase, Area;
    forall h, dim | 0 <= h < p.valueHeads && 0 <= dim < p.size
      ensures ColumnOf(s', p.valueHeads, h, p.size, dim)
           == StateAfter(p, initial, h, dim, Consumed(h, head + 1, lo, hi))
    {
      if h != head {
        ColumnUnaffected(s, s', p.valueHeads, head, h, p.size, dim);
      }
    }
  }

  /** A cell of another head or of a token outside [lo, hi) lies outside the head's block. */
  lemma OutputCellOutside(p: Problem, head: nat, lo: nat, hi: nat, h: nat, t: nat, dim: nat)
    requires lo <= hi <= p.tokens && t < p.tokens && dim < p.size
    requires h != head || !(lo <= t < hi)
    ensures !(TokenBase(p, head, lo) <= OutputIndex(p, h, t, dim) < TokenBase(p, head, lo) + (hi - lo) * p.size)
  {
    var cell, first, last := At(h, t, p.tokens), At(head, lo, p.tokens), At(head, lo, p.tokens) + (hi - lo);
    if h < head { RowsDisjoint(h, head, p.tokens); }
    if head < h { RowsDisjoint(head, h, p.tokens); }
    assert cell < first || last <= cell;
    if cell < first {
      RowsDisjoint(cell, first, p.size);
    } else if last < cell {
      RowsDisjoint(last, cell, p.size);
    }
    Distribute(first, hi - lo, p.size);
  }

  /** The same for the block of a single token. */
  lemma OutputRowOutside(p: Problem, head: nat, token: nat, h: nat, t: nat, dim: nat)
    requires token < p.tokens && t < p.tokens && dim < p.size
    requires h != head || t != token
    ensures !(TokenBase(p, head, token) <= OutputIndex(p, h, t, dim) < TokenBase(p, head, token) + p.size)
  {
    OutputCellOutside(p, head, token, token + 1, h, t, dim);
    Distribute(0, 1, p.size);
  }

  lemma Distribute(a: nat, b: nat, c: nat)
    ensures (a + b) * c == a * c + b * c
  {}

  lemma OutputCellInside(p: Problem, head: nat, t: nat, dim: nat)
    requires head < p.valueHeads && t < p.tokens && dim < p.size
    ensures OutputIndex(p, head, t, dim) < p.valueHeads * p.tokens * p.size
  {
    TokenBaseBound(p, p.valueHeads, head, t);
  }

  /** Filling one head's block of outputs advances the output buffer. */
  lemma AdvanceOutput(p: Problem, scale: real, initial: seq<real>, o: seq<real>, o': seq<real>, lo: nat, hi: nat,
                      head: nat)
    requires p.Valid() && |initial| == p.valueHeads * Area(p.size) && |o| == |o'| == p.valueHeads * p.tokens * p.size
    requires lo <= hi <= p.tokens && head < p.valueHeads
    requires OutputProgress(p, scale, initial, o, lo, hi, head)
    requires SameOutside(o, o', TokenBase(p, head, lo), TokenBase(p, head, lo) + (hi - lo) * p.size)
    requires forall t, dim {:trigger OutputIndex(p, head, t, dim)} :: lo <= t < hi && 0 <= dim < p.size ==>
      OutputIndex(p, head, t, dim) < |o'| && o'[OutputIndex(p, head, t, dim)]
        == OutputAt(p, initial, scale, head, t, dim)
    ensures OutputProgress(p, scale, initial, o', lo, hi, head + 1)
  {
    hide OutputIndex, OutputAt, TokenBase, Area;
    forall h, t, dim | 0 <= h < p.valueHeads && 0 <= t < Consumed(h, head + 1, lo, hi) && 0 <= dim < p.size
      ensures OutputIndex(p, h, t, dim) < |o'|
           && o'[OutputIndex(p, h, t, dim)] == OutputAt(p, initial, scale, h, t, dim)
    {
      OutputCellInside(p, h, t, dim);
      if h != head || !(lo <= t < hi) {
        OutputCellOutside(p, head, lo, hi, h, t, dim);
      }
    }
  }

  lemma KeepPending(p: Problem, o: seq<real>, o': seq<real>, lo: nat, hi: nat, head: nat)
    requires |o| == |o'| == p.valueHeads * p.tokens * p.size
    requires lo <= hi <= p.tokens && head < p.valueHeads
    requires OutputPending(p, o, lo, hi, head)
    requires SameOutside(o, o', TokenBase(p, head, lo), TokenBase(p, head, lo) + (hi - lo) * p.size)
    ensures OutputPending(p, o', lo, hi, head + 1)
  {
    hide OutputIndex, TokenBase;
    forall h, t, dim | 0 <= h < p.valueHeads && Consumed(h, head + 1, lo, hi) <= t < p.tokens && 0 <= dim < p.size
      ensures OutputIndex(p, h, t, dim) < |o'| && o'[OutputIndex(p, h, t, dim)] == 0.0
    {
      OutputCellInside(p, h, t, dim);
      OutputCellOutside(p, head, lo, hi, h, t, dim);
    }
  }

  /** When every head has reached `hi`, the next round starts there. */
  lemma NextRound(p: Problem, scale: real, initial: seq<real>, s: seq<real>, o: seq<real>, lo: nat, hi: nat, hi': nat)
    requires p.Valid() && |initial| == |s| == p.valueHeads * Area(p.size)
    requires lo <= hi <= hi' <= p.tokens
    requires StateProgress(p, initial, s, lo, hi, p.valueHeads) || (lo == hi && StateProgress(p, initial, s, lo, hi, 0))
    requires OutputProgress(p, scale, initial, o, lo, hi,
                            p.valueHeads) || (lo == hi && OutputProgress(p, scale, initial, o, lo, hi, 0))
    ensures StateProgress(p, initial, s, hi, hi', 0)
    ensures OutputProgress(p, scale, initial, o, hi, hi', 0)
  {
    hide ColumnOf, StateAfter, OutputAt, OutputIndex, Area;
  }

  lemma NextPending(p: Problem, o: seq<real>, lo: nat, hi: nat, hi': nat)
    requires lo <= hi <= hi' <= p.tokens
    requires OutputPending(p, o, lo, hi, p.valueHeads) || (lo == hi && OutputPending(p, o, lo, hi, 0))
    ensures OutputPending(p, o, hi, hi', 0)
  {
    hide OutputIndex;
  }

  lemma Begin(p: Problem, scale: real, initial: seq<real>, o: seq<real>, hi: nat)
    requires p.Valid() && |initial| == p.valueHeads * Area(p.size)
    requires hi <= p.tokens
    ensures StateProgress(p, initial, initial, 0, hi, 0)
    ensures OutputProgress(p, scale, initial, o, 0, hi, 0)
  {}

  lemma Finish(p: Problem, scale: real, initial: seq<real>, s: seq<real>, o: seq<real>)
    requires p.Valid() && |initial| == |s| == p.valueHeads * Area(p.size)
    requires |o| == p.valueHeads * p.tokens * p.size
    requires StateProgress(p, initial, s, p.tokens, p.tokens, 0)
    requires OutputProgress(p, scale, initial, o, p.tokens, p.tokens, 0)
    ensures Recurred(p, scale, initial, s, o)
  {
    hide ColumnOf, StateAfter, OutputAt, OutputIndex, Area;
  }
}
