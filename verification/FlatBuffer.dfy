/** Three-dimensional row-major buffers, addressed as the source writes it out. The kernels' own
    addressing is in Layout; nothing here uses it but the bounds. */
module FlatBuffer {
  import opened Layout

  lemma FlatInside(a: nat, n: nat, b: nat, m: nat, c: nat, size: nat)
    requires a < n && b < m && c < size
    ensures (a * m + b) * size + c < n * m * size
  {
    AtBound(a, n, b, m);
    AtBound(a * m + b, n * m, c, size);
  }

  /** Cell [a][b][c] of a buffer of n x m x size cells. */
  function FlatCell(buffer: seq<real>, n: nat, m: nat, size: nat, a: nat, b: nat, c: nat): real
    requires |buffer| == n * m * size && a < n && b < m && c < size
  {
    FlatInside(a, n, b, m, c, size);
    buffer[(a * m + b) * size + c]
  }

  lemma FlatCellIs(buffer: seq<real>, n: nat, m: nat, size: nat, a: nat, b: nat, c: nat)
    requires |buffer| == n * m * size && a < n && b < m && c < size
    ensures var i := (a * m + b) * size + c; 0 <= i < |buffer| && FlatCell(buffer, n, m, size, a, b, c) == buffer[i]
  {
    FlatInside(a, n, b, m, c, size);
  }
}
