/** Applying the inverse, and the corrected values it yields. */
module GdnSolve {
  import opened LinearAlgebra
  import opened Layout
  import opened Matrix
  import opened TriangularSystem
  import opened GdnProblem
  import opened GdnRecurrent

  /** values[row] += coefficient * newValues[source]; keys[row] += coefficient * decayedK[source] */
  method AddRow(values: array2<real>, keys: array2<real>, row: nat,
                newValues: array2<real>, decayedK: array2<real>, source: nat, coefficient: real)
    requires row < values.Length0 == keys.Length0 && source < newValues.Length0 == decayedK.Length0
    requires values.Length1 == keys.Length1 == newValues.Length1 == decayedK.Length1
    requires values != keys && values != newValues && values != decayedK && keys != newValues && keys != decayedK
    modifies values, keys
    ensures Rows(values) == old(Rows(values))[row := Axpy(coefficient, Row(newValues, source), old(Row(values, row)))]
    ensures Rows(keys) == old(Rows(keys))[row := Axpy(coefficient, Row(decayedK, source), old(Row(keys, row)))]
  {
    hide Axpy, Spliced;
    ghost var values0, keys0, v, k := Rows(values), Rows(keys), Row(newValues, source), Row(decayedK, source);
    ghost var values1, keys1 := Axpy(coefficient, v, values0[row]), Axpy(coefficient, k, keys0[row]);
    SplicedEnds(values1, values0[row]);
    SplicedEnds(keys1, keys0[row]);
    for d := 0 to values.Length1
      invariant Rows(values) == values0[row := Spliced(values1, values0[row], d)]
      invariant Rows(keys) == keys0[row := Spliced(keys1, keys0[row], d)]
    {
      SplicedNext(values1, values0[row], d);
      SplicedNext(keys1, keys0[row], d);
      AxpyAt(coefficient, v, values0[row], d);
      AxpyAt(coefficient, k, keys0[row], d);
      assert Row(values, row)[d] == values0[row][d] && Row(keys, row)[d] == keys0[row][d];
      assert newValues[source, d] == v[d] && decayedK[source, d] == k[d];
      var x := values[row, d] + coefficient * newValues[source, d];
      var y := keys[row, d] + coefficient * decayedK[source, d];
      assert x == values1[d] && y == keys1[d];
      SetCell(values, row, d, x);
      SetCell(keys, row, d, y);
    }
  }

  /** The source loop of one row. */
  method SolveRow(inverse: array2<real>, row: nat, newValues: array2<real>, decayedK: array2<real>,
                  values: array2<real>, keys: array2<real>)
    requires inverse.Length0 == inverse.Length1 == newValues.Length0 == decayedK.Length0
    requires inverse.Length0 == values.Length0 == keys.Length0
    requires newValues.Length1 == decayedK.Length1 == values.Length1 == keys.Length1 && row < inverse.Length0
    requires values != keys && values != newValues && values != decayedK && keys != newValues && keys != decayedK
    requires values != inverse && keys != inverse
    requires Row(values, row) == Row(keys, row) == Zero(values.Length1)
    modifies values, keys
    ensures var solved := Combination(Row(inverse, row), Rows(newValues), values.Length1, row + 1);
      Rows(values) == old(Rows(values))[row := solved]
    ensures var solved := Combination(Row(inverse, row), Rows(decayedK), values.Length1, row + 1);
      Rows(keys) == old(Rows(keys))[row := solved]
  {
    hide Axpy, Row, Combination;
    ghost var w, vs, ks, size := Row(inverse, row), Rows(newValues), Rows(decayedK), values.Length1;
    ghost var values0, keys0 := Rows(values), Rows(keys);
    CombinationEmpty(w, vs, size);
    CombinationEmpty(w, ks, size);
    for source := 0 to row + 1
      invariant Rows(values) == values0[row := Combination(w, vs, size, source)]
      invariant Rows(keys) == keys0[row := Combination(w, ks, size, source)]
    {
      CombinationUnfold(w, vs, size, source + 1);
      CombinationUnfold(w, ks, size, source + 1);
      assert Row(newValues, source) == vs[source] && Row(decayedK, source) == ks[source];
      assert inverse[row, source] == w[source];
      AddRow(values, keys, row, newValues, decayedK, source, inverse[row, source]);
    }
    assert Rows(newValues) == vs && Rows(decayedK) == ks && Row(inverse, row) == w;
  }

  /** The first `n` rows are solved, the others are still zero. */
  ghost predicate SolvedTo(rows: seq<Vec>, inverse: seq<Vec>, xs: seq<Vec>, size: nat, n: nat)
    requires |rows| == |inverse| == |xs| && n <= |rows| && Square(inverse, |inverse|)
    requires forall i :: 0 <= i < |xs| ==> |xs[i]| == size
  {
    forall r {:trigger rows[r]} :: 0 <= r < |rows| ==>
      rows[r] == if r < n then Combination(inverse[r], xs, size, r + 1) else Zero(size)
  }

  lemma SolvedNext(rows: seq<Vec>, rows': seq<Vec>, inverse: seq<Vec>, xs: seq<Vec>, size: nat, n: nat)
    requires |rows| == |rows'| == |inverse| == |xs| && n < |rows| && Square(inverse, |inverse|)
    requires forall i :: 0 <= i < |xs| ==> |xs[i]| == size
    requires SolvedTo(rows, inverse, xs, size, n)
    requires rows' == rows[n := Combination(inverse[n], xs, size, n + 1)]
    ensures SolvedTo(rows', inverse, xs, size, n + 1)
  {
    hide Combination;
  }

  /** The triangular solve: row r combines the first r + 1 rows with row r of the inverse. */
  method SolveChunk(inverse: array2<real>, newValues: array2<real>, decayedK: array2<real>)
    returns (values: array2<real>, keys: array2<real>)
    requires inverse.Length0 == inverse.Length1 == newValues.Length0 == decayedK.Length0
    requires newValues.Length1 == decayedK.Length1
    ensures fresh(values) && fresh(keys)
    ensures values.Length0 == keys.Length0 == inverse.Length0 && values.Length1 == keys.Length1 == newValues.Length1
    ensures SolvedTo(Rows(values), Rows(inverse), Rows(newValues), values.Length1, values.Length0)
    ensures SolvedTo(Rows(keys), Rows(inverse), Rows(decayedK), values.Length1, values.Length0)
  {
    var n, size := inverse.Length0, newValues.Length1;
    values := ZeroMatrix(n, size);
    keys := ZeroMatrix(n, size);
    ghost var inv, vs, ks := Rows(inverse), Rows(newValues), Rows(decayedK);
    assert SolvedTo(Rows(values), inv, vs, size, 0) && SolvedTo(Rows(keys), inv, ks, size, 0);
    hide Combination, Row, Rows;
    for row := 0 to n
      invariant SolvedTo(Rows(values), inv, vs, size, row)
      invariant SolvedTo(Rows(keys), inv, ks, size, row)
    {
      ghost var values0, keys0 := Rows(values), Rows(keys);
      assert values0[row] == Row(values, row) && keys0[row] == Row(keys, row);
      SolveRow(inverse, row, newValues, decayedK, values, keys);
      hide SolvedTo;
      SolvedNext(values0, Rows(values), inv, vs, size, row);
      SolvedNext(keys0, Rows(keys), inv, ks, size, row);
    }
  }

  /** The value of one corrected cell. */
  ghost function CorrectedCell(values: seq<Vec>, keys: seq<Vec>, state: seq<real>, base: nat, size: nat, r: nat,
                               d: nat): real
    requires r < |values| == |keys| && d < size == |values[r]| == |keys[r]| && base + Area(size) <= |state|
  {
    values[r][d] - Dot(keys[r], ColumnAt(state, base, size, d), size)
  }

  /** corrected[r, d] = solved value less the solved key's view of the starting column. */
  method CorrectChunk(values: array2<real>, keys: array2<real>, state: array<real>, base: nat)
    returns (corrected: array2<real>)
    requires values.Length0 == keys.Length0 && values.Length1 == keys.Length1
    requires base + Area(keys.Length1) <= state.Length
    ensures fresh(corrected) && corrected.Length0 == values.Length0 && corrected.Length1 == values.Length1
    ensures forall r, d {:trigger corrected[r, d]} :: 0 <= r < corrected.Length0 && 0 <= d < corrected.Length1 ==>
      corrected[r, d] == CorrectedCell(Rows(values), Rows(keys), state[..], base, keys.Length1, r, d)
  {
    hide Dot, At, Area, ColumnAt, CorrectedCell;
    var n, size := values.Length0, values.Length1;
    corrected := ZeroMatrix(n, size);
    ghost var s, vs, ks := state[..], Rows(values), Rows(keys);
    for row := 0 to n
      invariant forall r, d :: 0 <= r < row && 0 <= d < size ==>
        corrected[r, d] == CorrectedCell(vs, ks, s, base, size, r, d)
    {
      for d := 0 to size
        invariant forall r, e :: 0 <= r <= row && 0 <= e < size && (r < row || e < d) ==>
          corrected[r, e] == CorrectedCell(vs, ks, s, base, size, r, e)
      {
        assert state[..] == s && Rows(values) == vs && Rows(keys) == ks;
        var x := CorrectCell(values, keys, state, base, row, d);
        corrected[row, d] := x;
      }
    }
    assert state[..] == s && Rows(values) == vs && Rows(keys) == ks;
  }

  method CorrectCell(values: array2<real>, keys: array2<real>, state: array<real>, base: nat, row: nat, d: nat)
    returns (x: real)
    requires values.Length0 == keys.Length0 && values.Length1 == keys.Length1
    requires row < keys.Length0 && d < keys.Length1 && base + Area(keys.Length1) <= state.Length
    ensures x == CorrectedCell(Rows(values), Rows(keys), state[..], base, keys.Length1, row, d)
  {
    hide Dot, Area, ColumnAt;
    var predicted := Predict(keys, row, state, base, d);
    assert Rows(values)[row] == Row(values, row) && Rows(keys)[row] == Row(keys, row);
    x := values[row, d] - predicted;
  }

  method Predict(keys: array2<real>, row: nat, state: array<real>, base: nat, d: nat) returns (predicted: real)
    requires row < keys.Length0 && d < keys.Length1 && base + Area(keys.Length1) <= state.Length
    ensures predicted == Dot(Row(keys, row), ColumnAt(state[..], base, keys.Length1, d), keys.Length1)
  {
    hide *;
    var size := keys.Length1;
    ghost var key, column := Row(keys, row), ColumnAt(state[..], base, size, d);
    DotEmpty(key, column);
    predicted := 0.0;
    for c := 0 to size
      invariant predicted == Dot(key, column, c)
    {
      var x := GetEntry(state, base, size, c, d);
      predicted := Accumulate(predicted, keys[row, c], x, key, column, c);
    }
  }
}
