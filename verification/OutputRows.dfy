/** The output buffer as rows, one for each (token, head), numbered as the grids of the kernels
    number their workgroups. */
module OutputRows {
  import opened LinearAlgebra
  import opened Layout
  import opened AttentionProblem
  import opened Attention

  /** The number of output rows. */
  function RowCount(l: Launch): nat { l.tokens * l.heads }

  lemma RowDigits(l: Launch, r: nat)
    requires l.Valid() && r < RowCount(l)
    ensures r / l.heads < l.tokens && r % l.heads < l.heads && At(r / l.heads, r % l.heads, l.heads) == r
  {
    assert r == At(r / l.heads, r % l.heads, l.heads);
    ProductOrder(l.tokens, r / l.heads, l.heads);
  }

  function RowToken(l: Launch, r: nat): (token: nat)
    requires l.Valid() && r < RowCount(l)
    ensures token < l.tokens
  {
    RowDigits(l, r);
    r / l.heads
  }

  function RowHead(l: Launch, r: nat): (head: nat)
    requires l.Valid() && r < RowCount(l)
    ensures head < l.heads
  {
    r % l.heads
  }

  /** Every token and head has a row. */
  lemma RowOf(l: Launch, token: nat, head: nat)
    requires l.Valid() && token < l.tokens && head < l.heads
    ensures var r := At(token, head, l.heads); r < RowCount(l) && RowToken(l, r) == token && RowHead(l, r) == head
  {
    AtBound(token, l.tokens, head, l.heads);
    AtDigits(token, head, l.heads);
  }

  function RowNumber(l: Launch, output: seq<real>, r: nat): (row: Vec)
    requires l.Valid() && |output| == |l.query| && r < RowCount(l)
    ensures |row| == l.dim
  {
    AccRow(RowCount(l), r, l.dim);
    output[At(r, 0, l.dim)..At(r, 0, l.dim) + l.dim]
  }

  /** A kernel that writes one row leaves that row and keeps the others. */
  lemma RowWritten(l: Launch, was: seq<real>, now: seq<real>, r: nat)
    requires l.Valid() && |was| == |now| == |l.query| && r < RowCount(l)
    requires OtherRowsKept(l, was, now, RowToken(l, r), RowHead(l, r))
    ensures var start := OutputRow(l, RowToken(l, r), RowHead(l, r));
      start + l.dim <= |now| && RowNumber(l, now, r) == now[start..start + l.dim]
    ensures forall i :: 0 <= i < RowCount(l) && i != r ==> RowNumber(l, now, i) == RowNumber(l, was, i)
  {
    RowDigits(l, r);
    OutputInside(l, RowToken(l, r), RowHead(l, r));
    forall i | 0 <= i < RowCount(l) && i != r ensures RowNumber(l, now, i) == RowNumber(l, was, i) {
      if i < r { RowsDisjoint(i, r, l.dim); } else { RowsDisjoint(r, i, l.dim); }
      AccRow(RowCount(l), i, l.dim);
      hide At;
    }
  }

  /** The rows are the whole output. */
  lemma RowsAreAll(l: Launch, a: seq<real>, b: seq<real>)
    requires l.Valid() && |a| == |b| == |l.query|
    requires forall r :: 0 <= r < RowCount(l) ==> RowNumber(l, a, r) == RowNumber(l, b, r)
    ensures a == b
  {
    forall i | 0 <= i < |a| ensures a[i] == b[i] {
      var r, d := AtSurjective(i, RowCount(l), l.dim);
      AtOffset(r, d, l.dim);
      AccRow(RowCount(l), r, l.dim);
      assert RowNumber(l, a, r)[d] == RowNumber(l, b, r)[d];
      hide At;
    }
  }
}
