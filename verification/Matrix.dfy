/** Row and column views of the scratch matrices a kernel allocates. */
module Matrix {
  import opened LinearAlgebra

  function Row(m: array2<real>, r: nat): (v: Vec)
    requires r < m.Length0
    reads m
    ensures |v| == m.Length1
    ensures forall c :: 0 <= c < m.Length1 ==> v[c] == m[r, c]
  {
    seq(m.Length1, c requires 0 <= c < m.Length1 reads m => m[r, c])
  }

  function Rows(m: array2<real>): (rows: seq<Vec>)
    reads m
    ensures |rows| == m.Length0
    ensures forall r :: 0 <= r < m.Length0 ==> rows[r] == Row(m, r) && |rows[r]| == m.Length1
  {
    seq(m.Length0, r requires 0 <= r < m.Length0 reads m => Row(m, r))
  }

  function Col(m: array2<real>, c: nat): (v: Vec)
    requires c < m.Length1
    reads m
    ensures |v| == m.Length0
    ensures forall r :: 0 <= r < m.Length0 ==> v[r] == m[r, c]
  {
    seq(m.Length0, r requires 0 <= r < m.Length0 reads m => m[r, c])
  }

  /** A zero-filled matrix, as the program's vectors are allocated. */
  method ZeroMatrix(rows: nat, columns: nat) returns (m: array2<real>)
    ensures fresh(m) && m.Length0 == rows && m.Length1 == columns
    ensures forall r :: 0 <= r < rows ==> Rows(m)[r] == Zero(columns)
  {
    m := new real[rows, columns]((i, j) => 0.0);
    forall r | 0 <= r < rows ensures Rows(m)[r] == Zero(columns) {
      assert Rows(m)[r] == Row(m, r);
    }
  }

  /** m[row, column] := x changes one entry of one row. */
  method SetCell(m: array2<real>, row: nat, column: nat, x: real)
    requires row < m.Length0 && column < m.Length1
    modifies m
    ensures Row(m, row) == old(Row(m, row))[column := x]
    ensures Rows(m) == old(Rows(m))[row := Row(m, row)]
  {
    ghost var rows := Rows(m);
    m[row, column] := x;
    assert Row(m, row) == rows[row][column := x];
    forall r | 0 <= r < m.Length0 && r != row ensures Row(m, r) == rows[r] {}
  }
}
