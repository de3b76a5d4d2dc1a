/** Algebraic laws of the max-merge that the threaded per-patch driver relies
    on: the merge only ever raises cells, repeating it changes nothing, and
    two patches can be merged in either order. */
module MergeLaws {
  import opened Grid
  import opened Compositing

  /** Two canvases of the same shape that agree on every cell are equal. */
  lemma CanvasExt(a: Canvas, b: Canvas)
    requires SameShape(a, b)
    requires forall i, j :: 0 <= i < |a| && 0 <= j < |a[i]| ==> a[i][j] == b[i][j]
    ensures a == b
  {
    forall i | 0 <= i < |a| ensures a[i] == b[i] {
      assert |a[i]| == |b[i]|;
    }
  }

  /** Every cell after a merge is at least its old value, and a NaN cell
      stays NaN: a higher code is never replaced by a lower one. */
  lemma MergeMonotone(g: Canvas, y1: nat, y2: int, x1: nat, x2: int, p: Bitmap)
    requires IsGrid(g) && y1 <= y2 && x1 <= x2
    requires UpdateDataWithPatch(g, y1, y2, x1, x2, p).Ok?
    ensures var r := UpdateDataWithPatch(g, y1, y2, x1, x2, p).value;
      forall i, j :: 0 <= i < |g| && 0 <= j < |g[i]| ==> CellLe(g[i][j], r[i][j])
  {
  }

  /** Merging the same patch twice gives the canvas of merging it once. */
  lemma MergeIdempotent(g: Canvas, y1: nat, y2: int, x1: nat, x2: int, p: Bitmap)
    requires IsGrid(g) && y1 <= y2 && x1 <= x2
    ensures var once := UpdateDataWithPatch(g, y1, y2, x1, x2, p);
      once.Ok? ==> UpdateDataWithPatch(once.value, y1, y2, x1, x2, p) == once
  {
    var once := UpdateDataWithPatch(g, y1, y2, x1, x2, p);
    if once.Ok? {
      var twice := UpdateDataWithPatch(once.value, y1, y2, x1, x2, p);
      assert twice.Ok?;
      forall i, j | 0 <= i < |g| && 0 <= j < |g[i]| ensures twice.value[i][j] == once.value[i][j] {
        if Foreground(p, i - y1, j - x1) {
          MaxCellIdempotent(g[i][j], p[i - y1][j - x1]);
        }
      }
      CanvasExt(twice.value, once.value);
    }
  }

  /** Merging two patches in either order fails alike, and when it succeeds
      yields the same canvas. */
  lemma MergeCommute(g: Canvas,
                     ay1: nat, ay2: int, ax1: nat, ax2: int, a: Bitmap,
                     by1: nat, by2: int, bx1: nat, bx2: int, b: Bitmap)
    requires IsGrid(g)
    requires ay1 <= ay2 && ax1 <= ax2 && by1 <= by2 && bx1 <= bx2
    ensures var ab := UpdateDataWithPatch(g, ay1, ay2, ax1, ax2, a);
            var ba := UpdateDataWithPatch(g, by1, by2, bx1, bx2, b);
            && (ab.Ok? && UpdateDataWithPatch(ab.value, by1, by2, bx1, bx2, b).Ok?
                <==> ba.Ok? && UpdateDataWithPatch(ba.value, ay1, ay2, ax1, ax2, a).Ok?)
            && (ab.Ok? && ba.Ok? ==>
                  UpdateDataWithPatch(ab.value, by1, by2, bx1, bx2, b)
                  == UpdateDataWithPatch(ba.value, ay1, ay2, ax1, ax2, a))
  {
    var ab := UpdateDataWithPatch(g, ay1, ay2, ax1, ax2, a);
    var ba := UpdateDataWithPatch(g, by1, by2, bx1, bx2, b);
    if ab.Ok? && ba.Ok? {
      var abb := UpdateDataWithPatch(ab.value, by1, by2, bx1, bx2, b);
      var baa := UpdateDataWithPatch(ba.value, ay1, ay2, ax1, ax2, a);
      assert abb.Ok? && baa.Ok?;
      forall i, j | 0 <= i < |g| && 0 <= j < |g[i]| ensures abb.value[i][j] == baa.value[i][j] {
        if Foreground(a, i - ay1, j - ax1) && Foreground(b, i - by1, j - bx1) {
          MaxCellCommute(g[i][j], a[i - ay1][j - ax1], b[i - by1][j - bx1]);
        }
      }
      CanvasExt(abb.value, baa.value);
    }
  }
}
