/** Worked examples on small canvases: two overlapping patches over a small
    disk, NaN propagation outside the disk, and the tie in `np.rint` that
    makes a patch which fits the canvas raise `IndexError`. */
module Scenarios {
  import opened Grid
  import opened Rounding
  import opened BoundingBox
  import opened Compositing
  import opened DataSource
  import opened SynthSun

  /** Disk of radius 3 centred on (5, 5) in a 10 x 10 grid. */
  const diskKeys := DiskKeys(3.0, 1.0, 5.0, 5.0)

  /** The matching canvas reference pixel. */
  const canvasFrame := Frame(5.0, 5.0)

  /** A 2 x 2 patch `[[code, code], [code, 0]]` whose slice starts at row 4,
      column 4 on a 10-row canvas. */
  function PatchAt44(code: int, harp: real): Patch {
    Patch([[code, code], [code, 0]], Frame(1.0, 1.0), harp)
  }

  /** Both patches land on rows 4..6 and columns 4..6. */
  lemma PatchAt44Placement(code: int, harp: real)
    ensures Placement(10, canvasFrame, PatchAt44(code, harp)) == Bbox(4, 6, 4, 6, Rectangle(4, 4, 2, 2))
  {
    assert RowOffset(10, canvasFrame, Frame(1.0, 1.0)) == 4.0;
    assert Rint(4.0) == 4 && Rint(6.0) == 6;
  }

  /** A `PatchAt44` puts its code on the cells of rows and columns 4..5
      except `(5, 5)`. */
  lemma PatchAt44Covers(code: int, harp: real, i: nat, j: nat)
    requires code != 0 && 4 <= i <= 5 && 4 <= j <= 5
    ensures Covers(10, canvasFrame, PatchAt44(code, harp), i, j) <==> (i, j) != (5, 5)
    ensures (i, j) != (5, 5) ==> CodeAt(10, canvasFrame, PatchAt44(code, harp), i, j) == code
  {
    PatchAt44Placement(code, harp);
  }

  /** The disk canvas is 1.0 on the four cells the patches touch. */
  lemma DiskCentre()
    ensures Prepared(DataGen(10, diskKeys))
  {
    var g := DataGen(10, diskKeys);
    forall i, j | 4 <= i <= 5 && 4 <= j <= 5 ensures g[i][j] == Val(1.0) {
      assert InDisk(diskKeys, i, j);
    }
  }

  /** A 10 x 10 canvas that is 1.0 where the two patches go (the disk
      above, by `DiskCentre`). */
  predicate Prepared(g: Canvas) {
    IsGrid(g) && |g| == 10 && Cols(g) == 10
    && forall a, b :: 4 <= a <= 5 && 4 <= b <= 5 ==> g[a][b] == Val(1.0)
  }

  /** Two overlapping patches with codes `lo < hi`, in either order: both
      runs succeed and leave the same canvas, and the boxes come out in patch
      order. */
  lemma EndToEndOrder(g: Canvas, lo: int, hi: int)
    requires Prepared(g) && 1 < lo < hi
    ensures var ab := GetBboxes(g, canvasFrame, [PatchAt44(lo, 11.0), PatchAt44(hi, 12.0)]);
      var ba := GetBboxes(g, canvasFrame, [PatchAt44(hi, 12.0), PatchAt44(lo, 11.0)]);
      && ab.Ok? && ba.Ok? && ab.value.data == ba.value.data
      && ab.value.bbox == [(Rectangle(4, 4, 2, 2), 11), (Rectangle(4, 4, 2, 2), 12)]
  {
    var a, b := PatchAt44(lo, 11.0), PatchAt44(hi, 12.0);
    var ps, qs := [a, b], [b, a];
    PatchAt44Placement(lo, 11.0);
    PatchAt44Placement(hi, 12.0);
    assert multiset(ps) == multiset(qs);
    BboxesOk(g, canvasFrame, ps);
    OrderIndependent(g, canvasFrame, ps, qs);
    BboxEntries(g, canvasFrame, ps);
    TruncIntegral(11);
    TruncIntegral(12);
  }

  /** In the same run the three foreground cells end at `hi` and the
      background pixel of the patches keeps 1.0. */
  lemma EndToEndCells(g: Canvas, lo: int, hi: int, i: nat, j: nat)
    requires Prepared(g) && 1 < lo < hi
    requires 4 <= i <= 5 && 4 <= j <= 5
    ensures var ab := GetBboxes(g, canvasFrame, [PatchAt44(lo, 11.0), PatchAt44(hi, 12.0)]);
      ab.Ok? && ab.value.data[i][j] == if (i, j) == (5, 5) then Val(1.0) else Val(hi as real)
  {
    var a, b := PatchAt44(lo, 11.0), PatchAt44(hi, 12.0);
    var ps := [a, b];
    PatchAt44Placement(lo, 11.0);
    PatchAt44Placement(hi, 12.0);
    EndToEndOrder(g, lo, hi);
    FinalCell(g, canvasFrame, ps, i, j);
    CoverCodesCons(10, canvasFrame, ps, i, j);
    CoverCodesCons(10, canvasFrame, ps[1..], i, j);
    assert ps[1..][1..] == [];
    assert CoverCodes(10, canvasFrame, [], i, j) == {};
    PatchAt44Covers(lo, 11.0, i, j);
    PatchAt44Covers(hi, 12.0, i, j);
  }

  /** A foreground pixel over a NaN cell leaves it NaN (`np.maximum`
      propagates NaN): the corner of the grid lies outside the disk. */
  lemma NaNCellStaysNaN()
    ensures var g := DataGen(10, diskKeys);
      var p := Patch([[5]], Frame(5.0, 5.0), 1.0);
      var r := GetBboxes(g, canvasFrame, [p]);
      && g[0][0] == NoData && Covers(10, canvasFrame, p, 0, 0)
      && r.Ok? && r.value.data[0][0] == NoData
  {
    var g := DataGen(10, diskKeys);
    var p := Patch([[5]], Frame(5.0, 5.0), 1.0);
    assert Placement(10, canvasFrame, p) == Bbox(0, 1, 0, 1, Rectangle(0, 0, 1, 1));
    assert !InDisk(diskKeys, 0, 0);
    BboxesOk(g, canvasFrame, [p]);
    FinalCell(g, canvasFrame, [p], 0, 0);
  }

  /** A 3 x 1 all-foreground patch whose reference pixel gives the row
      offset `10 - 5 - crpix2`. */
  function Column3(crpix2: real): Patch {
    Patch([[1], [1], [1]], Frame(1.0, crpix2), 7.0)
  }

  /** On a 10 x 10 canvas, a 3 x 1 patch whose row offset is the tie 3.5
      gets `y1 = rint(3.5) = 4` and `y2 = rint(6.5) = 6`: a two-row slice.
      The patch fits the canvas, yet its foreground pixel in row 2 is outside
      the slice and the merge raises `IndexError`. */
  lemma TieShortensSlice(g: Canvas)
    requires IsGrid(g) && |g| == 10 && Cols(g) == 10
    ensures var b := Placement(10, canvasFrame, Column3(1.5));
      && b.y1 == 4 && b.y2 == 6 && b.rect.height == 3 && b.y1 + 3 <= 10
      && OnePatch(g, canvasFrame, Column3(1.5)).Err?
  {
    assert RowOffset(10, canvasFrame, Frame(1.0, 1.5)) == 3.5;
    assert Rint(3.5) == 4 && Rint(6.5) == 6;
    assert Foreground(Column3(1.5).bitmap, 2, 0);
  }

  /** The other tie: row offset 2.5 gives `y1 = 2` and `y2 = rint(5.5) = 6`,
      a slice one row taller than the patch, and the merge succeeds. */
  lemma TieLengthensSlice(g: Canvas)
    requires IsGrid(g) && |g| == 10 && Cols(g) == 10
    ensures var b := Placement(10, canvasFrame, Column3(2.5));
      && b.y1 == 2 && b.y2 == 6 && b.rect.height == 3
      && OnePatch(g, canvasFrame, Column3(2.5)).Ok?
  {
    assert RowOffset(10, canvasFrame, Frame(1.0, 2.5)) == 2.5;
    assert Rint(2.5) == 2 && Rint(5.5) == 6 && Rint(4.0) == 4 && Rint(5.0) == 5;
    var p := Column3(2.5);
    assert Placement(10, canvasFrame, p) == Bbox(2, 6, 4, 5, Rectangle(4, 2, 1, 3));
    assert FitsSlice(10, 10, 2, 6, 4, 5, p.bitmap) by {
      forall r, c | Foreground(p.bitmap, r, c) ensures r < 4 && c < 1 {
      }
    }
  }
}
