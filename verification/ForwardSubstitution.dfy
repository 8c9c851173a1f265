/** In-place forward substitution for the inverse of I + strict_lower(system). */
module ForwardSubstitution {
  import opened LinearAlgebra
  import opened TriangularSystem
  import opened Matrix

  /** What the rows of `inverse` satisfy: unit lower triangular, and row r of
      (I + L) * inverse is row r of the identity. */
  ghost predicate RowDone(rows: seq<Vec>, inverse: seq<Vec>, n: nat, r: nat)
    requires Square(rows, n) && Square(inverse, n) && r < n
  {
    RowPartial(rows, inverse, n, r, r)
  }

  /** Row r after eliminating the columns below m. */
  ghost predicate RowPartial(rows: seq<Vec>, inverse: seq<Vec>, n: nat, r: nat, m: nat)
    requires Square(rows, n) && Square(inverse, n) && m <= r < n
  {
    && (forall x {:trigger inverse[r][x]} :: 0 <= x < n ==>
          inverse[r][x] + Dot(rows[r], Column(inverse, x), m) == Identity(r, x))
    && (forall x {:trigger inverse[r][x]} :: r <= x < n ==> inverse[r][x] == Identity(r, x))
  }

  /** inverse[row] -= coefficient * inverse[column] */
  method Eliminate(inverse: array2<real>, row: nat, column: nat, coefficient: real)
    requires column < row < inverse.Length0 == inverse.Length1
    modifies inverse
    ensures var reduced := Axpy(-coefficient, old(Row(inverse, column)), old(Row(inverse, row)));
      Rows(inverse) == old(Rows(inverse))[row := reduced]
  {
    ghost var before, source, target := Rows(inverse), Row(inverse, column), Row(inverse, row);
    ghost var result := Axpy(-coefficient, source, target);
    hide Axpy, Row, Rows;
    SplicedEnds(result, target);
    for rhs := 0 to inverse.Length1
      invariant Rows(inverse) == before[row := Spliced(result, target, rhs)]
    {
      SplicedNext(result, target, rhs);
      AxpyAt(-coefficient, source, target, rhs);
      var reduced := ReducedEntry(inverse, row, column, rhs, coefficient, target[rhs], source[rhs]);
      assert Row(inverse, row) == Rows(inverse)[row] == Spliced(result, target, rhs);
      SetCell(inverse, row, rhs, reduced);
      assert reduced == result[rhs];
      assert Row(inverse, row) == Spliced(result, target, rhs)[rhs := result[rhs]];
      assert Row(inverse, row) == Spliced(result, target, rhs + 1);
      Overwrite(before, row, Spliced(result, target, rhs), Row(inverse, row));
    }
  }

  lemma Overwrite(rows: seq<Vec>, row: nat, x: Vec, y: Vec)
    requires row < |rows|
    ensures rows[row := x][row := y] == rows[row := y]
  {}

  /** inverse[row][rhs] - coefficient * inverse[column][rhs] */
  method ReducedEntry(inverse: array2<real>, row: nat, column: nat, rhs: nat, coefficient: real,
                      ghost target: real, ghost source: real) returns (reduced: real)
    requires row < inverse.Length0 && column < inverse.Length0 && rhs < inverse.Length1
    requires Rows(inverse)[row][rhs] == target && Rows(inverse)[column][rhs] == source
    ensures reduced == target + -coefficient * source
  {
    assert inverse[row, rhs] == Rows(inverse)[row][rhs] && inverse[column, rhs] == Rows(inverse)[column][rhs];
    hide *;
    NegatedProduct(coefficient, source);
    reduced := inverse[row, rhs] - coefficient * inverse[column, rhs];
  }

  lemma NegatedProduct(a: real, b: real)
    ensures -a * b == -(a * b)
  {}

  lemma EliminateStep(rows: seq<Vec>, inverse: seq<Vec>, inverse': seq<Vec>, n: nat, r: nat, m: nat)
    requires Square(rows, n) && Square(inverse, n) && Square(inverse', n) && m < r < n
    requires RowPartial(rows, inverse, n, r, m) && RowDone(rows, inverse, n, m)
    requires inverse' == inverse[r := Axpy(-rows[r][m], inverse[m], inverse[r])]
    ensures RowPartial(rows, inverse', n, r, m + 1)
  {
    forall x | 0 <= x < n
      ensures inverse'[r][x] + Dot(rows[r], Column(inverse', x), m + 1) == Identity(r, x)
      ensures inverse'[r][x] == inverse[r][x] - rows[r][m] * inverse[m][x]
    {
      AxpyAt(-rows[r][m], inverse[m], inverse[r], x);
      DotCongruence(rows[r], rows[r], Column(inverse, x), Column(inverse', x), m);
      DotUnfold(rows[r], Column(inverse', x), m + 1);
    }
    forall x | r <= x < n ensures inverse'[r][x] == Identity(r, x) {
      assert inverse[m][x] == Identity(m, x) == 0.0;
    }
  }

  /** Finished rows depend only on finished rows. */
  lemma RowStaysDone(rows: seq<Vec>, inverse: seq<Vec>, inverse': seq<Vec>, n: nat, k: nat)
    requires Square(rows, n) && Square(inverse, n) && Square(inverse', n) && k < n
    requires RowDone(rows, inverse, n, k)
    requires forall i :: 0 <= i <= k ==> inverse'[i] == inverse[i]
    ensures RowDone(rows, inverse', n, k)
  {
    forall x | 0 <= x < n
      ensures inverse'[k][x] + Dot(rows[k], Column(inverse', x), k) == Identity(k, x)
    {
      DotCongruence(rows[k], rows[k], Column(inverse, x), Column(inverse', x), k);
    }
  }

  ghost predicate IdentityRow(v: Vec, r: nat) {
    forall x :: 0 <= x < |v| ==> v[x] == Identity(r, x)
  }

  lemma AllRowsDone(rows: seq<Vec>, inverse: seq<Vec>, n: nat)
    requires Square(rows, n) && Square(inverse, n)
    requires forall r :: 0 <= r < n ==> RowDone(rows, inverse, n, r)
    ensures UnitLower(inverse, n) && RightInverse(rows, inverse, n)
  {
    forall r, x | 0 <= r < n && 0 <= x < n
      ensures inverse[r][x] + Dot(rows[r], Column(inverse, x), r) == Identity(r, x)
      ensures r <= x ==> inverse[r][x] == Identity(r, x)
    {
      assert RowDone(rows, inverse, n, r);
    }
  }

  /** Turns the identity into the inverse of I + strict_lower(system). */
  method ForwardSubstitute(system: array2<real>, inverse: array2<real>)
    requires system != inverse
    requires system.Length0 == system.Length1 == inverse.Length0 == inverse.Length1
    requires forall r :: 0 <= r < inverse.Length0 ==> IdentityRow(Row(inverse, r), r)
    modifies inverse
    ensures UnitLower(Rows(inverse), inverse.Length0)
    ensures RightInverse(Rows(system), Rows(inverse), inverse.Length0)
  {
    hide Dot, Axpy, Row, Rows;
    var n := inverse.Length0;
    ghost var rows := Rows(system);
    assert Square(rows, n) && Square(Rows(inverse), n);
    for row := 0 to n
      invariant Rows(system) == rows
      invariant forall r :: 0 <= r < row ==> RowDone(rows, Rows(inverse), n, r)
      invariant forall r :: row <= r < n ==> IdentityRow(Rows(inverse)[r], r)
    {
      StartRow(rows, Rows(inverse), n, row);
      for column := 0 to row
        invariant Rows(system) == rows
        invariant forall r :: 0 <= r < row ==> RowDone(rows, Rows(inverse), n, r)
        invariant forall r :: row < r < n ==> IdentityRow(Rows(inverse)[r], r)
        invariant RowPartial(rows, Rows(inverse), n, row, column)
      {
        ghost var before := Rows(inverse);
        var coefficient := system[row, column];
        assert coefficient == rows[row][column];
        Eliminate(inverse, row, column, coefficient);
        assert Rows(system) == rows;
        EliminateStep(rows, before, Rows(inverse), n, row, column);
        forall r | 0 <= r < row ensures RowDone(rows, Rows(inverse), n, r) {
          RowStaysDone(rows, before, Rows(inverse), n, r);
        }
      }
    }
    AllRowsDone(rows, Rows(inverse), n);
  }

  lemma StartRow(rows: seq<Vec>, inverse: seq<Vec>, n: nat, r: nat)
    requires Square(rows, n) && Square(inverse, n) && r < n && IdentityRow(inverse[r], r)
    ensures RowPartial(rows, inverse, n, r, 0)
  {
    forall x | 0 <= x < n ensures inverse[r][x] + Dot(rows[r], Column(inverse, x), 0) == Identity(r, x) {
      DotEmpty(rows[r], Column(inverse, x));
    }
  }
}
