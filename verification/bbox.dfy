/** Placement of one patch on the canvas (`_get_single_bbox` in
    solarpatch/sources/data_base.py): the four slice bounds `y1, y2, x1, x2`
    and the drawn rectangle, each bound rounded with `np.rint` on its own. */
module BoundingBox {
  import opened Rounding

  /** Reference-pixel metadata `(CRPIX1, CRPIX2)` of the canvas or of a patch. */
  datatype Frame = Frame(crpix1: real, crpix2: real)

  /** The drawn rectangle: anchor `(x, y)` plus width and height. */
  datatype Rectangle = Rectangle(x: int, y: int, width: nat, height: nat)

  /** The result of `_get_single_bbox`: slice bounds and the rectangle. */
  datatype Bbox = Bbox(y1: int, y2: int, x1: int, x2: int, rect: Rectangle)

  /** Unrounded row offset of a patch: the canvas row count `s` minus both
      CRPIX2 values. */
  function RowOffset(s: nat, canvas: Frame, patch: Frame): real {
    s as real - canvas.crpix2 - patch.crpix2
  }

  /** Unrounded column offset: the canvas ROW count `s` again (the code uses
      `shape[0]` for both axes) minus both CRPIX1 values. */
  function ColOffset(s: nat, canvas: Frame, patch: Frame): real {
    s as real - canvas.crpix1 - patch.crpix1
  }

  /** `_get_single_bbox` for a patch of shape `(h, w)` on a canvas with `s`
      rows. */
  function SingleBbox(s: nat, canvas: Frame, patch: Frame, h: nat, w: nat): (b: Bbox)
    ensures RoundsHalfEven(RowOffset(s, canvas, patch), b.y1)
    ensures RoundsHalfEven(RowOffset(s, canvas, patch) + h as real, b.y2)
    ensures RoundsHalfEven(ColOffset(s, canvas, patch), b.x1)
    ensures RoundsHalfEven(ColOffset(s, canvas, patch) + w as real, b.x2)
    ensures b.rect == Rectangle(b.x1, b.y1, w, h)
    ensures b.y1 <= b.y2 && b.x1 <= b.x2
    ensures h - 1 <= b.y2 - b.y1 <= h + 1 && w - 1 <= b.x2 - b.x1 <= w + 1
  {
    var ry, rx := RowOffset(s, canvas, patch), ColOffset(s, canvas, patch);
    var y2 := Rint(ry + h as real);
    var y1 := Rint(ry);
    var x2 := Rint(rx + w as real);
    var x1 := Rint(rx);
    RintIsHalfEven(ry, y1);
    RintIsHalfEven(ry + h as real, y2);
    RintIsHalfEven(rx, x1);
    RintIsHalfEven(rx + w as real, x2);
    RintMonotone(ry, ry + h as real);
    RintMonotone(rx, rx + w as real);
    RintShift(ry, h);
    RintShift(rx, w);
    Bbox(y1, y2, x1, x2, Rectangle(x1, y1, w, h))
  }

  /** Signed difference between a rounded span and the dimension it should
      have: zero unless the offset is a tie and the dimension is odd. */
  function Drift(offset: real, dim: nat): int {
    if IsHalf(offset) && dim % 2 != 0 then
      (if offset.Floor % 2 == 0 then 1 else -1)
    else 0
  }

  /** The slice height and width equal the patch shape exactly when the offset
      is not a tie or the dimension is even; otherwise they are one longer
      (offset floor even) or one shorter (offset floor odd). */
  lemma {:induction false} SpanExact(s: nat, canvas: Frame, patch: Frame, h: nat, w: nat)
    ensures var b := SingleBbox(s, canvas, patch, h, w);
      && b.y2 - b.y1 == h + Drift(RowOffset(s, canvas, patch), h)
      && b.x2 - b.x1 == w + Drift(ColOffset(s, canvas, patch), w)
    ensures var b := SingleBbox(s, canvas, patch, h, w);
      (b.y2 - b.y1 == h <==> !IsHalf(RowOffset(s, canvas, patch)) || h % 2 == 0)
      && (b.x2 - b.x1 == w <==> !IsHalf(ColOffset(s, canvas, patch)) || w % 2 == 0)
  {
    RintShift(RowOffset(s, canvas, patch), h);
    RintShift(ColOffset(s, canvas, patch), w);
  }
}
