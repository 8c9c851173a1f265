/** Row-major addressing. Every buffer of the program is one flat vector. */
module Layout {

  function At(row: nat, column: nat, width: nat): nat {
    row * width + column
  }

  /** The number of cells of a square matrix. */
  function Area(size: nat): nat {
    size * size
  }

  lemma AtBound(row: nat, rows: nat, column: nat, width: nat)
    requires row < rows && column < width
    ensures At(row, column, width) < rows * width
    ensures At(row, 0, width) + width <= rows * width
    ensures At(row, column, width) == At(row, 0, width) + column
  {
    assert (row + 1) * width <= rows * width;
  }

  /** Two addresses with in-range columns coincide only when both coordinates do. */
  lemma AtInjective(row: nat, column: nat, row': nat, column': nat, width: nat)
    requires column < width && column' < width
    ensures At(row, column, width) == At(row', column', width) <==> row == row' && column == column'
  {
    if row < row' {
      assert (row + 1) * width <= row' * width;
    } else if row' < row {
      assert (row' + 1) * width <= row * width;
    }
  }

  /** Every address is the address of exactly one (row, column). */
  lemma AtSurjective(address: nat, rows: nat, width: nat) returns (row: nat, column: nat)
    requires address < rows * width
    ensures row < rows && column < width && At(row, column, width) == address
  {
    assert width != 0 by { ProductZero(rows, width); }
    row, column := address / width, address % width;
    ProductOrder(rows, row, width);
  }

  lemma ProductZero(a: nat, b: nat)
    ensures b == 0 ==> a * b == 0
  {}

  lemma ProductOrder(a: nat, b: nat, width: nat)
    ensures a <= b ==> a * width <= b * width
  {}

  /** Distinct rows occupy disjoint ranges. */
  lemma RowsDisjoint(row: nat, row': nat, width: nat)
    requires row < row'
    ensures At(row, 0, width) + width <= At(row', 0, width)
  {
    assert (row + 1) * width <= row' * width;
  }

  lemma AtOffset(row: nat, column: nat, width: nat)
    ensures At(row, column, width) == At(row, 0, width) + column
  {}

  /** An address gives its row and column back. */
  lemma AtDigits(row: nat, column: nat, width: nat)
    requires column < width
    ensures At(row, column, width) / width == row && At(row, column, width) % width == column
  {
    var address := At(row, column, width);
    assert address == At(address / width, address % width, width);
    AtInjective(row, column, address / width, address % width, width);
  }
}
