/** The max-merge of one patch into the canvas (`_update_data_with_patch` in
    solarpatch/sources/data_base.py), written the way numpy evaluates it:
    `np.nonzero` of the patch, a fancy-index read of the canvas slice, an
    element-wise `np.maximum`, and a fancy-index write back through the slice
    view. An index outside the slice raises `IndexError` before anything is
    written. */
module Compositing {
  import opened Grid

  /** Pixel `(r, c)` of the patch exists and is non-zero. */
  predicate Foreground(p: Bitmap, r: int, c: int) {
    0 <= r < |p| && 0 <= c < |p[r]| && p[r][c] != 0
  }

  /** Row-major (C) order of pixel positions. */
  predicate Before(a: (nat, nat), b: (nat, nat)) {
    a.0 < b.0 || (a.0 == b.0 && a.1 < b.1)
  }

  /** Non-zero positions of row `i` from column `j` on, left to right. */
  function RowNonZero(p: Bitmap, i: nat, j: nat): (r: seq<(nat, nat)>)
    requires i < |p| && j <= |p[i]|
    decreases |p[i]| - j
    ensures forall k :: 0 <= k < |r| ==> r[k].0 == i && j <= r[k].1 && Foreground(p, r[k].0, r[k].1)
    ensures forall c :: j <= c < |p[i]| && p[i][c] != 0 ==> (i, c) in r
    ensures forall k, l :: 0 <= k < l < |r| ==> r[k].1 < r[l].1
  {
    if j == |p[i]| then []
    else if p[i][j] != 0 then [(i, j)] + RowNonZero(p, i, j + 1)
    else RowNonZero(p, i, j + 1)
  }

  /** Non-zero positions of rows `i..` in row-major order. */
  function NonZeroFrom(p: Bitmap, i: nat): (r: seq<(nat, nat)>)
    requires i <= |p|
    decreases |p| - i
    ensures forall k :: 0 <= k < |r| ==> i <= r[k].0 && Foreground(p, r[k].0, r[k].1)
    ensures forall a, c :: i <= a < |p| && 0 <= c < |p[a]| && p[a][c] != 0 ==> (a, c) in r
    ensures forall k, l :: 0 <= k < l < |r| ==> Before(r[k], r[l])
  {
    if i == |p| then []
    else
      var row, rest := RowNonZero(p, i, 0), NonZeroFrom(p, i + 1);
      var r := row + rest;
      assert forall a, c :: i <= a < |p| && 0 <= c < |p[a]| && p[a][c] != 0 ==> (a, c) in r by {
        forall a, c | i <= a < |p| && 0 <= c < |p[a]| && p[a][c] != 0 ensures (a, c) in r {
          if a == i { assert (a, c) in row; } else { assert (a, c) in rest; }
        }
      }
      r
  }

  /** `np.nonzero(p)`: exactly the foreground positions, each once, in C order. */
  function NonZero(p: Bitmap): (r: seq<(nat, nat)>)
    ensures forall k :: 0 <= k < |r| ==> Foreground(p, r[k].0, r[k].1)
    ensures forall a, c :: Foreground(p, a, c) ==> (a, c) in r
    ensures forall k, l :: 0 <= k < l < |r| ==> Before(r[k], r[l])
  {
    NonZeroFrom(p, 0)
  }

  /** Every position of `idx`, shifted by `(y1, x1)`, is a cell of `g`. */
  predicate InCanvas(g: Canvas, y1: nat, x1: nat, idx: seq<(nat, nat)>) {
    forall k :: 0 <= k < |idx| ==> y1 + idx[k].0 < |g| && x1 + idx[k].1 < |g[y1 + idx[k].0]|
  }

  /** `g[y1:, x1:][idx]`: the canvas values at the indexed positions. */
  function Gather(g: Canvas, y1: nat, x1: nat, idx: seq<(nat, nat)>): seq<Cell>
    requires InCanvas(g, y1, x1, idx)
  {
    seq(|idx|, k requires 0 <= k < |idx| => g[y1 + idx[k].0][x1 + idx[k].1])
  }

  /** Every position of `idx` is a pixel of `p`. */
  predicate InBitmap(p: Bitmap, idx: seq<(nat, nat)>) {
    forall k :: 0 <= k < |idx| ==> idx[k].0 < |p| && idx[k].1 < |p[idx[k].0]|
  }

  /** `p[idx]`: the patch codes at the indexed positions. */
  function Pick(p: Bitmap, idx: seq<(nat, nat)>): seq<int>
    requires InBitmap(p, idx)
  {
    seq(|idx|, k requires 0 <= k < |idx| => p[idx[k].0][idx[k].1])
  }

  /** Element-wise `np.maximum` of two equally long vectors. */
  function Maximum(cells: seq<Cell>, codes: seq<int>): seq<Cell>
    requires |cells| == |codes|
  {
    seq(|cells|, k requires 0 <= k < |cells| => MaxCell(cells[k], codes[k]))
  }

  /** Position `(i, j)` of the canvas is one of the indexed positions. */
  predicate Hit(y1: nat, x1: nat, idx: seq<(nat, nat)>, i: int, j: int) {
    i >= y1 && j >= x1 && (i - y1, j - x1) in idx
  }

  /** `g[y1:, x1:][idx] = vals`: write each value at its shifted position, in order. */
  function Scatter(g: Canvas, y1: nat, x1: nat, idx: seq<(nat, nat)>, vals: seq<Cell>): (r: Canvas)
    requires InCanvas(g, y1, x1, idx) && |vals| == |idx|
    decreases |idx|
    ensures SameShape(g, r)
  {
    if |idx| == 0 then g
    else
      var g' := SetCell(g, y1 + idx[0].0, x1 + idx[0].1, vals[0]);
      assert InCanvas(g', y1, x1, idx[1..]) by {
        forall k | 0 <= k < |idx[1..]| ensures y1 + idx[1..][k].0 < |g'| && x1 + idx[1..][k].1 < |g'[y1 + idx[1..][k].0]| {
          assert idx[1..][k] == idx[k + 1];
        }
      }
      Scatter(g', y1, x1, idx[1..], vals[1..])
  }

  /** A cell no index points at keeps its old value. */
  lemma {:induction false} ScatterMiss(g: Canvas, y1: nat, x1: nat, idx: seq<(nat, nat)>, vals: seq<Cell>, i: nat, j: nat)
    requires InCanvas(g, y1, x1, idx) && |vals| == |idx|
    requires i < |g| && j < |g[i]| && !Hit(y1, x1, idx, i, j)
    ensures Scatter(g, y1, x1, idx, vals)[i][j] == g[i][j]
    decreases |idx|
  {
    if |idx| > 0 {
      var g' := SetCell(g, y1 + idx[0].0, x1 + idx[0].1, vals[0]);
      assert (i, j) != (y1 + idx[0].0, x1 + idx[0].1);
      ScatterMiss(g', y1, x1, idx[1..], vals[1..], i, j);
    }
  }

  /** No position occurs twice. */
  predicate Distinct(idx: seq<(nat, nat)>) {
    forall a, b :: 0 <= a < b < |idx| ==> idx[a] != idx[b]
  }

  /** The tail of a distinct sequence is distinct and lacks the head. */
  lemma DistinctTail(idx: seq<(nat, nat)>)
    requires Distinct(idx) && |idx| > 0
    ensures Distinct(idx[1..]) && idx[0] !in idx[1..]
  {
  }

  /** With distinct positions, each indexed cell ends up holding its own value. */
  lemma {:induction false} ScatterHit(g: Canvas, y1: nat, x1: nat, idx: seq<(nat, nat)>, vals: seq<Cell>, k: nat)
    requires InCanvas(g, y1, x1, idx) && |vals| == |idx|
    requires Distinct(idx)
    requires k < |idx|
    ensures Scatter(g, y1, x1, idx, vals)[y1 + idx[k].0][x1 + idx[k].1] == vals[k]
    decreases |idx|
  {
    var i, j := y1 + idx[0].0, x1 + idx[0].1;
    var g' := SetCell(g, i, j, vals[0]);
    var rest, vals' := idx[1..], vals[1..];
    assert InCanvas(g', y1, x1, rest) by {
      forall l | 0 <= l < |rest| ensures y1 + rest[l].0 < |g'| && x1 + rest[l].1 < |g'[y1 + rest[l].0]| {
        assert rest[l] == idx[l + 1];
      }
    }
    assert Scatter(g, y1, x1, idx, vals) == Scatter(g', y1, x1, rest, vals');
    if k == 0 {
      DistinctTail(idx);
      ScatterMiss(g', y1, x1, rest, vals', i, j);
    } else {
      assert rest[k - 1] == idx[k];
      DistinctTail(idx);
      ScatterHit(g', y1, x1, rest, vals', k - 1);
    }
  }

  /** Every foreground pixel of `p` lies inside the canvas slice
      `[y1:y2, x1:x2]` of a `rows` x `cols` canvas, so the fancy index raises
      nothing. */
  ghost predicate FitsSlice(rows: nat, cols: nat, y1: nat, y2: int, x1: nat, x2: int, p: Bitmap)
    requires y1 <= y2 && x1 <= x2
  {
    forall r, c :: Foreground(p, r, c) ==> r < SliceLen(y1, y2, rows) && c < SliceLen(x1, x2, cols)
  }

  /** `_update_data_with_patch(i, y1, y2, x1, x2)`: merge the non-zero pixels
      of `p` into `g[y1:y2, x1:x2]` with `np.maximum`. */
  function UpdateDataWithPatch(g: Canvas, y1: nat, y2: int, x1: nat, x2: int, p: Bitmap): (r: Result<Canvas>)
    requires IsGrid(g)
    requires y1 <= y2 && x1 <= x2
    ensures r.Ok? <==> FitsSlice(|g|, Cols(g), y1, y2, x1, x2, p)
    ensures r.Ok? ==> SameShape(g, r.value) && IsGrid(r.value) && Cols(r.value) == Cols(g)
    ensures r.Ok? ==> forall i, j :: 0 <= i < |g| && 0 <= j < |g[i]| && !Foreground(p, i - y1, j - x1)
                        ==> r.value[i][j] == g[i][j]
    ensures r.Ok? ==> forall i, j :: 0 <= i < |g| && 0 <= j < |g[i]| && Foreground(p, i - y1, j - x1)
                        ==> r.value[i][j] == MaxCell(g[i][j], p[i - y1][j - x1])
  {
    var idx := NonZero(p);
    var hgt, wid := SliceLen(y1, y2, |g|), SliceLen(x1, x2, Cols(g));
    if exists k :: 0 <= k < |idx| && (idx[k].0 >= hgt || idx[k].1 >= wid) then
      assert !FitsSlice(|g|, Cols(g), y1, y2, x1, x2, p);
      Err(IndexError)
    else
      assert FitsSlice(|g|, Cols(g), y1, y2, x1, x2, p);
      assert InCanvas(g, y1, x1, idx);
      var mx := Maximum(Gather(g, y1, x1, idx), Pick(p, idx));
      var out := Scatter(g, y1, x1, idx, mx);
      ForegroundIndexed(g, y1, x1, p, idx, mx);
      Ok(out)
  }

  /** The cell-wise reading of gather, maximum and scatter: a foreground cell
      gets the maximum at its own position, every other cell is untouched. */
  lemma ForegroundIndexed(g: Canvas, y1: nat, x1: nat, p: Bitmap, idx: seq<(nat, nat)>, mx: seq<Cell>)
    requires idx == NonZero(p) && InCanvas(g, y1, x1, idx)
    requires mx == Maximum(Gather(g, y1, x1, idx), Pick(p, idx))
    ensures forall i, j :: 0 <= i < |g| && 0 <= j < |g[i]| && !Foreground(p, i - y1, j - x1)
              ==> Scatter(g, y1, x1, idx, mx)[i][j] == g[i][j]
    ensures forall i, j :: 0 <= i < |g| && 0 <= j < |g[i]| && Foreground(p, i - y1, j - x1)
              ==> Scatter(g, y1, x1, idx, mx)[i][j] == MaxCell(g[i][j], p[i - y1][j - x1])
  {
    NonZeroDistinct(p);
    assert InBitmap(p, idx);
    forall i, j | 0 <= i < |g| && 0 <= j < |g[i]| && !Foreground(p, i - y1, j - x1)
      ensures Scatter(g, y1, x1, idx, mx)[i][j] == g[i][j]
    {
      ScatterMiss(g, y1, x1, idx, mx, i, j);
    }
    forall i, j | 0 <= i < |g| && 0 <= j < |g[i]| && Foreground(p, i - y1, j - x1)
      ensures Scatter(g, y1, x1, idx, mx)[i][j] == MaxCell(g[i][j], p[i - y1][j - x1])
    {
      assert (i - y1, j - x1) in idx;
      ForegroundCell(g, y1, x1, p, idx, mx, i, j);
    }
  }

  /** One indexed cell of the merge holds the maximum at its position. */
  lemma ForegroundCell(g: Canvas, y1: nat, x1: nat, p: Bitmap, idx: seq<(nat, nat)>, mx: seq<Cell>, i: nat, j: nat)
    requires InCanvas(g, y1, x1, idx) && InBitmap(p, idx) && Distinct(idx)
    requires mx == Maximum(Gather(g, y1, x1, idx), Pick(p, idx))
    requires i < |g| && j < |g[i]| && Hit(y1, x1, idx, i, j)
    ensures Scatter(g, y1, x1, idx, mx)[i][j] == MaxCell(g[i][j], p[i - y1][j - x1])
  {
    var k :| 0 <= k < |idx| && idx[k] == (i - y1, j - x1);
    var r, c := idx[k].0, idx[k].1;
    assert y1 + r == i && x1 + c == j;
    MergeAt(g, y1, x1, p, idx, mx, k);
  }

  /** The `k`-th indexed cell ends up as the maximum of its old value and
      the `k`-th picked code. */
  lemma MergeAt(g: Canvas, y1: nat, x1: nat, p: Bitmap, idx: seq<(nat, nat)>, mx: seq<Cell>, k: nat)
    requires InCanvas(g, y1, x1, idx) && InBitmap(p, idx) && Distinct(idx)
    requires mx == Maximum(Gather(g, y1, x1, idx), Pick(p, idx))
    requires k < |idx|
    ensures Scatter(g, y1, x1, idx, mx)[y1 + idx[k].0][x1 + idx[k].1]
            == MaxCell(g[y1 + idx[k].0][x1 + idx[k].1], p[idx[k].0][idx[k].1])
  {
    ScatterHit(g, y1, x1, idx, mx, k);
  }

  /** `np.nonzero` lists no position twice. */
  lemma NonZeroDistinct(p: Bitmap)
    ensures Distinct(NonZero(p))
  {
    var idx := NonZero(p);
    forall a, b | 0 <= a < b < |idx| ensures idx[a] != idx[b] {
      assert Before(idx[a], idx[b]);
    }
  }
}
