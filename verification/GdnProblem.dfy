/** The multi-head problem: flat, head-major buffers and their reading as independent columns. */
module GdnProblem {
  import opened LinearAlgebra
  import opened Layout
  import opened GdnRecurrence

  /** The read-only inputs. Value head h shares key head h % keyHeads. */
  datatype Problem = Problem(
    keyHeads: nat, valueHeads: nat, size: nat, tokens: nat,
    query: seq<real>, key: seq<real>, value: seq<real>, beta: seq<real>, decay: seq<real>)
  {
    ghost predicate Valid() {
      && 0 < keyHeads
      && |query| == |key| == keyHeads * tokens * size
      && |value| == valueHeads * tokens * size
      && |beta| == |decay| == valueHeads * tokens
    }
  }

  /** The start of a token's vector of `size` entries in a head-major buffer. */
  function TokenBase(p: Problem, head: nat, token: nat): nat {
    At(At(head, token, p.tokens), 0, p.size)
  }

  lemma TokenBaseBound(p: Problem, heads: nat, head: nat, token: nat)
    requires head < heads && token < p.tokens
    ensures TokenBase(p, head, token) + p.size <= heads * p.tokens * p.size
    ensures At(head, token, p.tokens) < heads * p.tokens
  {
    AtBound(head, heads, token, p.tokens);
    hide At;
    RowBound(At(head, token, p.tokens), heads * p.tokens, p.size);
  }

  lemma SharedHead(p: Problem, head: nat)
    requires p.Valid()
    ensures head % p.keyHeads < p.keyHeads
  {}

  function KeyOf(p: Problem, head: nat, token: nat): (k: Vec)
    requires p.Valid() && token < p.tokens
    ensures |k| == p.size
    ensures TokenBase(p, head % p.keyHeads, token) + p.size <= |p.key|
    ensures forall d :: 0 <= d < p.size ==> k[d] == p.key[TokenBase(p, head % p.keyHeads, token) + d]
  {
    TokenBaseBound(p, p.keyHeads, head % p.keyHeads, token);
    var b := TokenBase(p, head % p.keyHeads, token);
    p.key[b..b + p.size]
  }

  function QueryOf(p: Problem, head: nat, token: nat): (q: Vec)
    requires p.Valid() && token < p.tokens
    ensures |q| == p.size
    ensures TokenBase(p, head % p.keyHeads, token) + p.size <= |p.query|
    ensures forall d :: 0 <= d < p.size ==> q[d] == p.query[TokenBase(p, head % p.keyHeads, token) + d]
  {
    TokenBaseBound(p, p.keyHeads, head % p.keyHeads, token);
    var b := TokenBase(p, head % p.keyHeads, token);
    p.query[b..b + p.size]
  }

  function ValueOf(p: Problem, head: nat, token: nat): (v: Vec)
    requires p.Valid() && head < p.valueHeads && token < p.tokens
    ensures |v| == p.size
    ensures TokenBase(p, head, token) + p.size <= |p.value|
    ensures forall d :: 0 <= d < p.size ==> v[d] == p.value[TokenBase(p, head, token) + d]
  {
    TokenBaseBound(p, p.valueHeads, head, token);
    var b := TokenBase(p, head, token);
    p.value[b..b + p.size]
  }

  function DecayOf(p: Problem, head: nat, token: nat): real
    requires p.Valid() && head < p.valueHeads && token < p.tokens
  {
    TokenBaseBound(p, p.valueHeads, head, token);
    p.decay[At(head, token, p.tokens)]
  }

  function BetaOf(p: Problem, head: nat, token: nat): real
    requires p.Valid() && head < p.valueHeads && token < p.tokens
  {
    TokenBaseBound(p, p.valueHeads, head, token);
    p.beta[At(head, token, p.tokens)]
  }

  /** One token as value dimension `dim` of head `head` sees it. */
  function TokenOf(p: Problem, head: nat, dim: nat, token: nat): (t: Token)
    requires p.Valid() && head < p.valueHeads && dim < p.size && token < p.tokens
    ensures |t.key| == |t.query| == p.size
  {
    Token(DecayOf(p, head, token), BetaOf(p, head, token), ValueOf(p, head, token)[dim],
          KeyOf(p, head, token), QueryOf(p, head, token))
  }

  /** The tokens [start, start+n) as one value dimension of one head sees them. */
  function Stream(p: Problem, head: nat, dim: nat, start: nat, n: nat): (ts: seq<Token>)
    requires p.Valid() && head < p.valueHeads && dim < p.size && start + n <= p.tokens
    ensures |ts| == n
    ensures forall t :: 0 <= t < n ==> ts[t] == TokenOf(p, head, dim, start + t)
    ensures Uniform(ts, p.size)
  {
    var ts := seq(n, t requires 0 <= t < n => TokenOf(p, head, dim, start + t));
    assert forall t :: 0 <= t < n ==> ts[t] == TokenOf(p, head, dim, start + t);
    ts
  }

  /** Where a head's size x size state matrix starts. */
  function HeadBase(size: nat, head: nat): nat { At(head, 0, Area(size)) }

  lemma RowBound(row: nat, rows: nat, width: nat)
    requires row < rows
    ensures At(row, 0, width) + width <= rows * width
  {
    ProductOrder(row + 1, rows, width);
    assert (row + 1) * width == row * width + width;
  }

  lemma HeadBaseBound(size: nat, heads: nat, head: nat)
    requires head < heads
    ensures HeadBase(size, head) + Area(size) <= heads * Area(size)
  {
    RowBound(head, heads, Area(size));
  }

  /** Column `dim` of the matrix stored row-major at `base`. */
  function ColumnAt(state: seq<real>, base: nat, size: nat, dim: nat): (c: Vec)
    requires dim < size && base + Area(size) <= |state|
    ensures |c| == size
  {
    forall r | 0 <= r < size ensures At(r, dim, size) < Area(size) { AtBound(r, size, dim, size); }
    seq(size, r requires 0 <= r < size => state[base + At(r, dim, size)])
  }

  lemma ColumnEntry(state: seq<real>, base: nat, size: nat, dim: nat, row: nat)
    requires dim < size && row < size && base + Area(size) <= |state|
    ensures base + At(row, dim, size) < |state|
    ensures ColumnAt(state, base, size, dim)[row] == state[base + At(row, dim, size)]
  {
    AtBound(row, size, dim, size);
  }

  /** Column `dim` of head `head` in the whole state buffer. */
  function ColumnOf(state: seq<real>, heads: nat, head: nat, size: nat, dim: nat): (c: Vec)
    requires head < heads && dim < size && |state| == heads * Area(size)
    ensures |c| == size
  {
    HeadBaseBound(size, heads, head);
    ColumnAt(state, HeadBase(size, head), size, dim)
  }

  /** The token recurrence's state for one column after `n` tokens of the problem. */
  function StateAfter(p: Problem, state: seq<real>, head: nat, dim: nat, n: nat): (c: Vec)
    requires p.Valid() && |state| == p.valueHeads * Area(p.size)
    requires head < p.valueHeads && dim < p.size && n <= p.tokens
    ensures |c| == p.size
  {
    Run(ColumnOf(state, p.valueHeads, head, p.size, dim), Stream(p, head, dim, 0, p.tokens), n)
  }

  function OutputAt(p: Problem, state: seq<real>, scale: real, head: nat, token: nat, dim: nat): real
    requires p.Valid() && |state| == p.valueHeads * Area(p.size)
    requires head < p.valueHeads && dim < p.size && token < p.tokens
  {
    Emit(ColumnOf(state, p.valueHeads, head, p.size, dim), Stream(p, head, dim, 0, p.tokens), token, scale)
  }

  function OutputIndex(p: Problem, head: nat, token: nat, dim: nat): nat {
    TokenBase(p, head, token) + dim
  }

  /** [head][token][dimension], row-major. */
  lemma OutputAddress(p: Problem, head: nat, token: nat, dim: nat)
    ensures OutputIndex(p, head, token, dim) == (head * p.tokens + token) * p.size + dim
  {}

  /** The output holds `x` at the source's address. */
  ghost predicate OutputHolds(p: Problem, output: seq<real>, head: nat, token: nat, dim: nat, x: real) {
    var i := (head * p.tokens + token) * p.size + dim;
    0 <= i < |output| && output[i] == x
  }

  lemma OutputHoldsAt(p: Problem, output: seq<real>, head: nat, token: nat, dim: nat, x: real)
    ensures OutputHolds(p, output, head, token, dim, x)
      <==> OutputIndex(p, head, token, dim) < |output| && output[OutputIndex(p, head, token, dim)] == x
  {
    OutputAddress(p, head, token, dim);
    hide OutputIndex;
  }

  /** `final` and `output` are what the token recurrence makes of `initial`. */
  ghost predicate Recurred(p: Problem, scale: real, initial: seq<real>, final: seq<real>, output: seq<real>)
    requires p.Valid() && |initial| == p.valueHeads * Area(p.size)
  {
    && |final| == |initial| && |output| == p.valueHeads * p.tokens * p.size
    && (forall head, dim :: 0 <= head < p.valueHeads && 0 <= dim < p.size ==>
          ColumnOf(final, p.valueHeads, head, p.size, dim) == StateAfter(p, initial, head, dim, p.tokens))
    && (forall head, token, dim :: 0 <= head < p.valueHeads && 0 <= token < p.tokens && 0 <= dim < p.size ==>
          OutputIndex(p, head, token, dim) < |output|
          && output[OutputIndex(p, head, token, dim)] == OutputAt(p, initial, scale, head, token, dim))
  }

  /** The recurrence determines both buffers completely: no cell is left unconstrained. */
  lemma RecurredIsUnique(p: Problem, scale: real, initial: seq<real>,
                         final: seq<real>, output: seq<real>, final': seq<real>, output': seq<real>)
    requires p.Valid() && |initial| == p.valueHeads * Area(p.size)
    requires Recurred(p, scale, initial, final, output) && Recurred(p, scale, initial, final', output')
    ensures final == final' && output == output'
  {
    forall i | 0 <= i < |final| ensures final[i] == final'[i] {
      var head, inner := AtSurjective(i, p.valueHeads, Area(p.size));
      var row, dim := AtSurjective(inner, p.size, p.size);
      AtBound(head, p.valueHeads, inner, Area(p.size));
      assert i == HeadBase(p.size, head) + At(row, dim, p.size);
      HeadBaseBound(p.size, p.valueHeads, head);
      ColumnEntry(final, HeadBase(p.size, head), p.size, dim, row);
      ColumnEntry(final', HeadBase(p.size, head), p.size, dim, row);
      assert ColumnOf(final, p.valueHeads, head, p.size, dim) == ColumnOf(final', p.valueHeads, head, p.size, dim);
    }
    forall i | 0 <= i < |output| ensures output[i] == output'[i] {
      var outer, dim := AtSurjective(i, p.valueHeads * p.tokens, p.size);
      var head, token := AtSurjective(outer, p.valueHeads, p.tokens);
      AtBound(outer, p.valueHeads * p.tokens, dim, p.size);
      assert i == OutputIndex(p, head, token, dim);
    }
  }
}
