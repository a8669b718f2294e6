/**
 * The numeric arrays the visualizer moves around: numpy arrays of zero, one
 * or two dimensions with real-valued cells, and the reductions it applies to
 * them (np.max over all cells, Python's max over two numbers, the shape).
 */
module NdArrays {

  /** A two-dimensional array of `rows` rows of `cols` cells each, row-major. */
  datatype RawMatrix = RawMatrix(rows: nat, cols: nat, cells: seq<seq<real>>)

  predicate Rectangular(m: RawMatrix) {
    |m.cells| == m.rows && forall i | 0 <= i < |m.cells| :: |m.cells[i]| == m.cols
  }

  /** Every two-dimensional numpy array is rectangular. */
  type Matrix = m: RawMatrix | Rectangular(m) witness RawMatrix(0, 0, [])

  /** The `rows` × `cols` matrix whose every cell is `v` (np.zeros when `v` is 0). */
  function Filled(rows: nat, cols: nat, v: real): (m: Matrix)
    ensures m.rows == rows && m.cols == cols
    ensures forall i, j | 0 <= i < rows && 0 <= j < cols :: m.cells[i][j] == v
  {
    RawMatrix(rows, cols, seq(rows, i => seq(cols, j => v)))
  }

  /** A numpy array of zero (a scalar), one or two dimensions. */
  datatype Array = Scalar(value: real) | Vector(items: seq<real>) | Grid(m: Matrix)

  /** The number of cells: the product of the shape. */
  function Size(a: Array): nat {
    match a
    case Scalar(_) => 1
    case Vector(v) => |v|
    case Grid(m) => m.rows * m.cols
  }

  /** `shape[0]`; a scalar has no axis 0. */
  function Axis0(a: Array): nat
    requires !a.Scalar?
  {
    if a.Vector? then |a.items| else a.m.rows
  }

  /** `shape[1]`; only a two-dimensional array has an axis 1. */
  function Axis1(a: Array): nat
    requires a.Grid?
  {
    a.m.cols
  }

  function Flatten(rows: seq<seq<real>>): seq<real> {
    if rows == [] then [] else rows[0] + Flatten(rows[1..])
  }

  /** The cells of an array in row-major order. */
  function Elements(a: Array): seq<real> {
    match a
    case Scalar(x) => [x]
    case Vector(v) => v
    case Grid(m) => Flatten(m.cells)
  }

  lemma {:induction false} FlattenLength(rows: seq<seq<real>>, c: nat)
    requires forall i | 0 <= i < |rows| :: |rows[i]| == c
    ensures |Flatten(rows)| == |rows| * c
  {
    if rows != [] {
      FlattenLength(rows[1..], c);
    }
  }

  lemma {:induction false} FlattenContains(rows: seq<seq<real>>, i: nat, j: nat)
    requires i < |rows| && j < |rows[i]|
    ensures rows[i][j] in Flatten(rows)
  {
    if i > 0 {
      FlattenContains(rows[1..], i - 1, j);
    }
  }

  lemma {:induction false} FlattenMembers(rows: seq<seq<real>>, x: real)
    requires x in Flatten(rows)
    ensures exists i, j | 0 <= i < |rows| && 0 <= j < |rows[i]| :: rows[i][j] == x
  {
    if rows != [] {
      if x !in rows[0] {
        FlattenMembers(rows[1..], x);
        var i, j :| 0 <= i < |rows[1..]| && 0 <= j < |rows[1..][i]| && rows[1..][i][j] == x;
        assert rows[i + 1][j] == x;
      }
    }
  }

  /** The shape counts exactly the cells. */
  lemma SizeCountsElements(a: Array)
    ensures |Elements(a)| == Size(a)
  {
    if a.Grid? {
      FlattenLength(a.m.cells, a.m.cols);
    }
  }

  /** A matrix has cells exactly when it has at least one row and one column. */
  lemma GridHasCells(m: Matrix)
    ensures Size(Grid(m)) > 0 <==> m.rows > 0 && m.cols > 0
  {
  }

  /** Python's built-in `max(a, b)`: the first argument unless the second is larger. */
  function Max(a: real, b: real): (r: real)
    ensures r >= a && r >= b && (r == a || r == b)
  {
    if b > a then b else a
  }

  /**
   * The same `max(a, b)` over the integer shape entries. Python's max is
   * generic; Dafny has no ordering common to `int` and `real`, so the two
   * instances the source uses are written separately.
   */
  function IntMax(a: int, b: int): (r: int)
    ensures r >= a && r >= b && (r == a || r == b)
  {
    if b > a then b else a
  }

  /** The largest element of a non-empty sequence, folded from the front. */
  function SeqMax(s: seq<real>): (r: real)
    requires |s| > 0
    ensures r in s
    ensures forall i | 0 <= i < |s| :: s[i] <= r
  {
    if |s| == 1 then s[0] else Max(SeqMax(s[..|s| - 1]), s[|s| - 1])
  }

  /** np.max: the largest cell of an array that has at least one cell. */
  function Peak(a: Array): (r: real)
    requires Size(a) > 0
    ensures r in Elements(a)
    ensures forall x | x in Elements(a) :: x <= r
  {
    SizeCountsElements(a);
    SeqMax(Elements(a))
  }

  /** For a matrix, np.max bounds every cell and is one of them. */
  lemma PeakOfMatrix(m: Matrix)
    requires m.rows > 0 && m.cols > 0
    ensures forall i, j | 0 <= i < m.rows && 0 <= j < m.cols :: m.cells[i][j] <= Peak(Grid(m))
    ensures exists i, j | 0 <= i < m.rows && 0 <= j < m.cols :: m.cells[i][j] == Peak(Grid(m))
  {
    forall i, j | 0 <= i < m.rows && 0 <= j < m.cols
      ensures m.cells[i][j] <= Peak(Grid(m))
    {
      FlattenContains(m.cells, i, j);
    }
    FlattenMembers(m.cells, Peak(Grid(m)));
  }
}
