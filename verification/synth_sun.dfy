/** The synthetic full-disk canvas (`SynthSun.data_gen` in
    solarpatch/sun/synth_sun.py): an all-NaN square grid in which every cell
    strictly inside the solar disk is set to 1.0. Columns are measured from
    CRPIX2 and rows from CRPIX1, as the code pairs them. */
module SynthSun {
  import opened Grid

  /** The full-disk header keywords `data_gen` reads. */
  datatype DiskKeys = DiskKeys(rsunObs: real, cdelt1: real, crpix1: real, crpix2: real)

  /** The hard-coded side of the synthetic grid. */
  const ImageSide: nat := 4096

  function Sq(x: real): real {
    x * x
  }

  /** Disk radius in pixels, `RSUN_OBS / CDELT1`. */
  function Radius(k: DiskKeys): real
    requires k.cdelt1 != 0.0
  {
    k.rsunObs / k.cdelt1
  }

  /** Cell `(row, col)` is strictly inside the disk. */
  predicate InDisk(k: DiskKeys, row: int, col: int)
    requires k.cdelt1 != 0.0
  {
    Sq(col as real - k.crpix2) + Sq(row as real - k.crpix1) < Sq(Radius(k))
  }

  /** `np.zeros((n, n)) * np.nan`. */
  function NaNGrid(n: nat): Canvas {
    seq(n, _ => seq(n, _ => NoData))
  }

  /** The boolean mask of the comparison, one entry per cell. */
  function DiskMask(n: nat, k: DiskKeys): seq<seq<bool>>
    requires k.cdelt1 != 0.0
  {
    seq(n, i => seq(n, j => InDisk(k, i, j)))
  }

  /** `data[mask] = x` for a mask of the same shape as `data`. */
  function MaskAssign(data: Canvas, mask: seq<seq<bool>>, x: real): (r: Canvas)
    requires SameShape(data, mask)
    ensures SameShape(data, r)
    ensures forall i, j :: 0 <= i < |data| && 0 <= j < |data[i]| ==>
              r[i][j] == (if mask[i][j] then Val(x) else data[i][j])
  {
    seq(|data|, i requires 0 <= i < |data| =>
      seq(|data[i]|, j requires 0 <= j < |data[i]| => if mask[i][j] then Val(x) else data[i][j]))
  }

  /** `data_gen` on an `n` x `n` grid. */
  function DataGen(n: nat, k: DiskKeys): (data: Canvas)
    requires k.cdelt1 != 0.0
    ensures |data| == n && IsGrid(data) && Cols(data) == n
    ensures forall i, j :: 0 <= i < n && 0 <= j < n ==> data[i][j] == Val(1.0) || data[i][j] == NoData
    ensures forall i, j :: 0 <= i < n && 0 <= j < n ==> (data[i][j] == Val(1.0) <==> InDisk(k, i, j))
  {
    MaskAssign(NaNGrid(n), DiskMask(n, k), 1.0)
  }

  /** The canvas `SynthSun` actually builds: 4096 x 4096. */
  function SynthData(k: DiskKeys): (data: Canvas)
    requires k.cdelt1 != 0.0
    ensures |data| == ImageSide && forall i :: 0 <= i < |data| ==> |data[i]| == ImageSide
  {
    DataGen(ImageSide, k)
  }

  /** The boundary is excluded: a cell exactly one radius from the centre is
      NaN, while for a radius above one half a cell one pixel closer is inside. */
  lemma BoundaryExcluded(n: nat, k: DiskKeys, i: nat, j: nat)
    requires k.cdelt1 != 0.0 && i < n && j < n
    ensures Sq(j as real - k.crpix2) + Sq(i as real - k.crpix1) == Sq(Radius(k)) ==> DataGen(n, k)[i][j] == NoData
    ensures Radius(k) > 1.0 / 2.0 && Sq(j as real - k.crpix2) + Sq(i as real - k.crpix1) == Sq(Radius(k) - 1.0)
            ==> DataGen(n, k)[i][j] == Val(1.0)
  {
    var r := Radius(k);
    assert Sq(r - 1.0) == Sq(r) - 2.0 * r + 1.0;
  }

  /** A larger radius (same centre) sets a superset of cells to 1.0. */
  lemma MonotoneInRadius(n: nat, k: DiskKeys, k': DiskKeys)
    requires k.cdelt1 != 0.0 && k'.cdelt1 != 0.0
    requires k.crpix1 == k'.crpix1 && k.crpix2 == k'.crpix2
    requires Sq(Radius(k)) <= Sq(Radius(k'))
    ensures forall i, j :: 0 <= i < n && 0 <= j < n && DataGen(n, k)[i][j] == Val(1.0) ==> DataGen(n, k')[i][j] == Val(1.0)
  {
  }

  /** The disk is point-symmetric about `(CRPIX1, CRPIX2)`: mirroring an
      inside cell through the centre lands on an inside cell, if on the grid. */
  lemma PointSymmetric(n: nat, k: DiskKeys, i: nat, j: nat, i': nat, j': nat)
    requires k.cdelt1 != 0.0 && i < n && j < n && i' < n && j' < n
    requires i' as real == 2.0 * k.crpix1 - i as real && j' as real == 2.0 * k.crpix2 - j as real
    requires DataGen(n, k)[i][j] == Val(1.0)
    ensures DataGen(n, k)[i'][j'] == Val(1.0)
  {
    assert Sq(j' as real - k.crpix2) == Sq(j as real - k.crpix2);
    assert Sq(i' as real - k.crpix1) == Sq(i as real - k.crpix1);
  }
}
