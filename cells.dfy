/** Grid cells and their row-major encoding.

    The flood engine stores a cell (i, j) of a rows x cols grid in its queues
    as the single integer i*cols + j and recovers the row and the column with
    `/` and `%`. This module states when that encoding round-trips and names
    the in-bounds 4-neighbourhood of a cell.
 */
module Cells {

  /** (i, j) lies inside [0, rows) x [0, cols). */
  predicate InGrid(rows: int, cols: int, i: int, j: int) {
    0 <= i < rows && 0 <= j < cols
  }

  /** The queue code of cell (i, j). */
  function Encode(cols: int, i: int, j: int): (c: int) {
    i * cols + j
  }

  /** (i, j) lies on the outer ring of the grid. */
  predicate OnBorder(rows: int, cols: int, i: int, j: int) {
    i == 0 || i == rows - 1 || j == 0 || j == cols - 1
  }

  /** The codes of the in-bounds right, left, lower and upper neighbours of
      (i, j), in the order the flood loops try them. */
  function NeighboursOf(rows: int, cols: int, i: int, j: int): (ns: set<int>) {
    (if j < cols - 1 then {Encode(cols, i, j + 1)} else {}) +
    (if j > 0 then {Encode(cols, i, j - 1)} else {}) +
    (if i < rows - 1 then {Encode(cols, i + 1, j)} else {}) +
    (if i > 0 then {Encode(cols, i - 1, j)} else {})
  }

  /** Each in-bounds step from (i, j) is one of its neighbours. */
  lemma NeighbourMembers(rows: int, cols: int, i: int, j: int)
    ensures j < cols - 1 ==> Encode(cols, i, j + 1) in NeighboursOf(rows, cols, i, j)
    ensures j > 0 ==> Encode(cols, i, j - 1) in NeighboursOf(rows, cols, i, j)
    ensures i < rows - 1 ==> Encode(cols, i + 1, j) in NeighboursOf(rows, cols, i, j)
    ensures i > 0 ==> Encode(cols, i - 1, j) in NeighboursOf(rows, cols, i, j)
  {
  }

  lemma MulStrictMono(a: int, b: int, k: int)
    requires a < b && k > 0
    ensures a * k < b * k
  {
    assert b * k - a * k == (b - a) * k;
  }

  /** Encoding an in-bounds cell gives a code in range that decodes back to
      the same row and column. */
  lemma EncodeDecode(rows: int, cols: int, i: int, j: int)
    requires InGrid(rows, cols, i, j)
    ensures 0 <= Encode(cols, i, j) < rows * cols
    ensures Encode(cols, i, j) / cols == i && Encode(cols, i, j) % cols == j
  {
    var c := Encode(cols, i, j);
    assert (i + 1) * cols <= rows * cols by {
      if i + 1 < rows { MulStrictMono(i + 1, rows, cols); }
    }
    var q, r := c / cols, c % cols;
    assert c == q * cols + r && 0 <= r < cols;
    if q < i {
      assert (q + 1) * cols <= i * cols by {
        if q + 1 < i { MulStrictMono(q + 1, i, cols); }
      }
    }
  }

  /** Every code in range decodes to an in-bounds cell that encodes back to
      the same code. */
  lemma DecodeEncode(rows: nat, cols: nat, c: int)
    requires 0 <= c < rows * cols
    ensures cols > 0
    ensures InGrid(rows, cols, c / cols, c % cols)
    ensures Encode(cols, c / cols, c % cols) == c
  {
    if cols == 0 {
      assert false;
    }
    var q := c / cols;
    assert c == q * cols + c % cols;
    if q < 0 {
      MulStrictMono(q, 0, cols);
      assert false;
    }
    if q >= rows {
      assert false;
    }
  }

  /** Two in-bounds cells with the same code are the same cell. */
  lemma EncodeInjective(rows: int, cols: int, i: int, j: int, i': int, j': int)
    requires InGrid(rows, cols, i, j) && InGrid(rows, cols, i', j')
    requires Encode(cols, i, j) == Encode(cols, i', j')
    ensures i == i' && j == j'
  {
    EncodeDecode(rows, cols, i, j);
    EncodeDecode(rows, cols, i', j');
  }

  /** Every neighbour code is the code of an in-bounds cell one step away. */
  lemma NeighboursInGrid(rows: int, cols: int, i: int, j: int, n: int)
    requires InGrid(rows, cols, i, j)
    requires n in NeighboursOf(rows, cols, i, j)
    ensures 0 <= n < rows * cols
    ensures InGrid(rows, cols, n / cols, n % cols)
    ensures (n / cols == i && (n % cols == j + 1 || n % cols == j - 1)) ||
            (n % cols == j && (n / cols == i + 1 || n / cols == i - 1))
  {
    if j < cols - 1 && n == Encode(cols, i, j + 1) {
      EncodeDecode(rows, cols, i, j + 1);
    } else if j > 0 && n == Encode(cols, i, j - 1) {
      EncodeDecode(rows, cols, i, j - 1);
    } else if i < rows - 1 && n == Encode(cols, i + 1, j) {
      EncodeDecode(rows, cols, i + 1, j);
    } else {
      EncodeDecode(rows, cols, i - 1, j);
    }
  }

  /** The neighbour relation is symmetric: the flood reaches a cell from any
      of its neighbours. */
  lemma NeighboursSymmetric(rows: int, cols: int, i: int, j: int, i': int, j': int)
    requires InGrid(rows, cols, i, j) && InGrid(rows, cols, i', j')
    requires Encode(cols, i', j') in NeighboursOf(rows, cols, i, j)
    ensures Encode(cols, i, j) in NeighboursOf(rows, cols, i', j')
  {
    NeighboursInGrid(rows, cols, i, j, Encode(cols, i', j'));
    EncodeDecode(rows, cols, i', j');
  }

  /** A set of codes of a grid with n cells has at most n members. */
  lemma {:induction false} CardBound(s: set<int>, n: nat)
    requires forall c :: c in s ==> 0 <= c < n
    ensures |s| <= n
  {
    if n == 0 {
      assert forall c :: c !in s;
      assert s == {};
    } else {
      CardBound(s - {n - 1}, n - 1);
    }
  }
}
