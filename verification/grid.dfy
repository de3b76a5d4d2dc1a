/** The numeric grids the compositor works on, and the small pieces of numpy
    semantics the model needs: a float cell that may be NaN, `np.maximum`
    (which propagates NaN), and the length of a clipped slice `a[lo:hi]`. */
module Grid {

  /** One canvas cell: a float that is either NaN or a real value. */
  datatype Cell = NoData | Val(v: real)

  /** A 2-D float array (the canvas), row-major. */
  type Canvas = seq<seq<Cell>>

  /** A 2-D integer array (a patch bitmap of category codes), row-major. */
  type Bitmap = seq<seq<int>>

  /** The only failure the modelled numpy operations can raise. */
  datatype Error = IndexError

  datatype Result<T> = Ok(value: T) | Err(error: Error)

  /** A 2-D numpy array is rectangular: every row is as long as the first. */
  predicate IsGrid<T>(g: seq<seq<T>>) {
    forall i :: 0 <= i < |g| ==> |g[i]| == |g[0]|
  }

  /** `g.shape[1]` (zero for an array with no rows). */
  function Cols<T>(g: seq<seq<T>>): nat {
    if |g| == 0 then 0 else |g[0]|
  }

  /** Two grids have the same shape. */
  predicate SameShape<T, U>(a: seq<seq<T>>, b: seq<seq<U>>) {
    |a| == |b| && forall i :: 0 <= i < |a| ==> |a[i]| == |b[i]|
  }

  /** `np.maximum(cell, code)` for a float cell and an integer code: NaN wins. */
  function MaxCell(c: Cell, code: int): (r: Cell)
    ensures c.NoData? <==> r.NoData?
    ensures c.Val? ==> r.v >= c.v && r.v >= code as real
    ensures c.Val? ==> r.v == c.v || r.v == code as real
  {
    match c
    case NoData => NoData
    case Val(x) => Val(if x < code as real then code as real else x)
  }

  /** The order the merge never goes down in: NaN only relates to NaN. */
  predicate CellLe(a: Cell, b: Cell) {
    match a
    case NoData => b.NoData?
    case Val(x) => b.Val? && x <= b.v
  }

  /** Taking the maximum with the same code twice changes nothing more. */
  lemma MaxCellIdempotent(c: Cell, code: int)
    ensures MaxCell(MaxCell(c, code), code) == MaxCell(c, code)
  {
  }

  /** The order two codes are folded into a cell does not matter. */
  lemma MaxCellCommute(c: Cell, a: int, b: int)
    ensures MaxCell(MaxCell(c, a), b) == MaxCell(MaxCell(c, b), a)
  {
  }

  /** Length of the numpy slice `a[lo:hi]` of an axis of size `n`, for
      non-negative bounds: the end is clipped at `n`, an empty range is empty. */
  function SliceLen(lo: nat, hi: int, n: nat): (len: nat)
    requires lo <= hi
    ensures len == 0 || lo + len <= n
    ensures len <= hi - lo
    ensures hi <= n ==> len == hi - lo
    ensures n <= hi && lo <= n ==> len == n - lo
  {
    if n <= lo then 0 else if hi < n then hi - lo else n - lo
  }

  /** `g` with the single cell `(i, j)` replaced by `x`. */
  function SetCell(g: Canvas, i: nat, j: nat, x: Cell): (r: Canvas)
    requires i < |g| && j < |g[i]|
    ensures |r| == |g| && |r[i]| == |g[i]| && r[i][j] == x
  {
    g[i := g[i][j := x]]
  }
}
