# solarpatch compositing core, modelled in Dafny

solarpatch draws the active-region patches of a solar observation onto a
full-disk image. Each patch is a small integer bitmap of category codes
with its own reference pixel (CRPIX1, CRPIX2) and a region number (HARPNUM).
The non-I/O logic of the package comes down to three computations, and this
project models all three and proves properties about them:

- **Placement** (`_get_single_bbox`): this turns the canvas and patch
  reference pixels into slice bounds `y1, y2, x1, x2` with `np.rint`. `np.rint`
  rounds half to even. It also returns the drawn rectangle, anchored at
  `(x1, y1)` with the patch's own width and height.
- **Max-merge** (`_update_data_with_patch`, driven by `_one_patch` and
  `_get_bboxes`): the non-zero pixels of a patch are written into the canvas
  slice as `np.maximum(canvas, patch)`. The drivers collect
  `(rectangle, int(HARPNUM))` for every patch, in patch order.
- **Synthetic disk** (`SynthSun.data_gen`): a 4096 x 4096 grid that is NaN
  everywhere except strictly inside the disk of radius `RSUN_OBS / CDELT1`.
  Inside the disk it is 1.0. Columns are measured from CRPIX2 and rows from
  CRPIX1.

Canvas cells are `Cell = NoData | Val(v)`, where `NoData` stands for NaN.
Offsets and radii are exact `real`s. The merge is modelled the way numpy
evaluates it:

1. `np.nonzero` lists the foreground positions in C order.
2. A fancy-index read gathers the matching canvas cells.
3. An element-wise `np.maximum` combines them with the patch codes.
4. A fancy-index write puts the results back through the slice view.

The slice end is clipped at the canvas size. A foreground index outside the
slice raises `IndexError` before anything is written, and the model returns
`Err(IndexError)` in that case.

Modules: `Grid` (cells, `np.maximum`, slice length), `Rounding`
(`np.rint`, `int()`), `BoundingBox` (placement), `Compositing` (the merge),
`MergeLaws` (monotone, idempotent, commutative), `DataSource` (the
per-patch fold), `SynthSun` (the disk) and `Scenarios` (worked examples on
small canvases).

Four behaviours of the code that are easy to misread, each followed by
the model:

- `y2` is `rint(offset + H)` rounded on its own, not `y1 + H`, and likewise
  `x2`. When the offset's fractional part is exactly one half and the
  dimension is odd, the slice is therefore one pixel longer or shorter than
  the patch (`BoundingBox.SpanExact`). A shorter slice makes a patch whose
  last row or column holds foreground raise `IndexError`, even though the
  patch fits the canvas (`Scenarios.TieShortensSlice`).
- `np.maximum` propagates NaN, so a NaN canvas cell stays NaN under a
  foreground pixel (`Grid.MaxCell`, `Scenarios.NaNCellStaysNaN`).
- The code checks no ranges: numpy clips the slice end and raises
  `IndexError` only for a foreground pixel outside the slice.
- There is no code recoder for a second instrument: that instrument's
  bitmap table is commented out (solarpatch/utils/default_variables.py:39-45).

## Model

| member | source | states |
|---|---|---|
| `Rounding.Rint` | solarpatch/sources/data_base.py:132-161 | `np.rint` lands within one half of its argument |
| `Rounding.RintIsHalfEven` | solarpatch/sources/data_base.py:132-161 | `Rint(x)` is exactly the integer within one half of `x` with ties to even, and no other integer is |
| `Rounding.RintMonotone` | solarpatch/sources/data_base.py:132-161 | rounding preserves order, so `y1 <= y2` and `x1 <= x2` |
| `Rounding.RintShift` | solarpatch/sources/data_base.py:132-161 | shifting by an integer `k` shifts the rounded value by `k`, except for a tie with odd `k`, which moves it one further (floor even) or one less (floor odd) |
| `Rounding.Trunc` | solarpatch/sources/data_base.py:186 | `int()` of a float truncates toward zero: the result lies between 0 and the value, less than 1 away |
| `Rounding.TruncIntegral` | solarpatch/sources/data_base.py:186 | `int()` leaves an integral HARPNUM unchanged |
| `BoundingBox.SingleBbox` | solarpatch/sources/data_base.py:114-178 | each bound is the half-to-even rounding of `rows - CRPIX_canvas - CRPIX_patch` (plus `H` or `W` for the far bounds), using the row count for both axes; the rectangle is anchored at `(x1, y1)` with the patch's width and height; `y1 <= y2`, `x1 <= x2`, and each span is within one pixel of the dimension |
| `BoundingBox.SpanExact` | solarpatch/sources/data_base.py:132-161 | `y2 - y1 == H` and `x2 - x1 == W` exactly when the offset is not a tie or the dimension is even; otherwise the span is `H + 1` (floor of the offset even) or `H - 1` (odd), and the same holds for `W` |
| `Grid.MaxCell` | solarpatch/sources/data_base.py:205-207 | `np.maximum` keeps NaN as NaN; for a real cell it gives the larger of the cell and the code |
| `Grid.MaxCellIdempotent` | solarpatch/sources/data_base.py:205-207 | folding the same code in twice equals folding it in once |
| `Grid.MaxCellCommute` | solarpatch/sources/data_base.py:205-207 | two codes can be folded into a cell in either order |
| `Grid.SliceLen` | solarpatch/sources/data_base.py:206 | the slice `a[lo:hi]` has `hi - lo` elements when it ends inside the axis, and is clipped at the axis end otherwise |
| `Compositing.NonZero` | solarpatch/sources/data_base.py:200 | `np.nonzero` lists exactly the non-zero pixels of the patch, each once, in row-major order |
| `Compositing.ScatterMiss` | solarpatch/sources/data_base.py:210 | the fancy-index write leaves every cell that no index points at unchanged |
| `Compositing.ScatterHit` | solarpatch/sources/data_base.py:210 | with distinct indices, each indexed cell ends up holding its own value |
| `Compositing.UpdateDataWithPatch` | solarpatch/sources/data_base.py:195-210 | the merge succeeds exactly when every foreground pixel lies inside the slice, and otherwise raises `IndexError`; on success the shape is kept, a cell not under a foreground pixel is unchanged (outside the footprint, or under a zero pixel), and a cell under one becomes `np.maximum(old, code)` |
| `MergeLaws.MergeMonotone` | solarpatch/sources/data_base.py:202-210 | no cell decreases and a NaN cell stays NaN, so a higher code is never overwritten by a lower one |
| `MergeLaws.MergeIdempotent` | solarpatch/sources/data_base.py:205-210 | merging the same patch twice gives the same canvas as merging it once |
| `MergeLaws.MergeCommute` | solarpatch/sources/data_base.py:195-210 | merging two patches in either order fails alike, and on success gives the same canvas |
| `DataSource.OnePatch` | solarpatch/sources/data_base.py:180-193 | one patch succeeds exactly when it fits its slice; it returns `(rectangle, int(HARPNUM))` and changes only the cells its foreground covers, to the maximum of old value and code |
| `DataSource.GetBboxes` | solarpatch/sources/data_base.py:105-112 | runs `_one_patch` on each patch in index order over one shared canvas, stopping at the first `IndexError`; on success the canvas keeps its shape (entries, success and final cells are stated by the three lemmas below) |
| `DataSource.BboxEntries` | solarpatch/sources/data_base.py:180-193 | the box list has one entry per patch; entry `k` is patch `k`'s rectangle and truncated HARPNUM, in patch-index order |
| `DataSource.BboxesOk` | solarpatch/sources/data_base.py:195-210 | the run succeeds exactly when every patch fits its slice, whatever the canvas contents and patch order |
| `DataSource.FinalCell` | solarpatch/sources/data_base.py:203-210 | after all patches, a NaN cell is still NaN, and a real cell holds the largest of its original value and every code any patch puts on it |
| `DataSource.OrderIndependent` | solarpatch/sources/data_base.py:109-112 | any permutation of the patches fails alike and, on success, leaves the same canvas |
| `SynthSun.DataGen` | solarpatch/sun/synth_sun.py:10-24 | the grid is `n` x `n`; every cell is 1.0 or NaN; a cell is 1.0 exactly when `(col - CRPIX2)^2 + (row - CRPIX1)^2 < (RSUN_OBS/CDELT1)^2` |
| `SynthSun.SynthData` | solarpatch/sun/synth_sun.py:14-18 | the synthetic canvas has 4096 rows of 4096 cells |
| `SynthSun.BoundaryExcluded` | solarpatch/sun/synth_sun.py:19-21 | a cell at squared distance exactly radius² is NaN; for a radius above one half, a cell at distance radius - 1 is 1.0 |
| `SynthSun.MonotoneInRadius` | solarpatch/sun/synth_sun.py:16-22 | a larger radius about the same centre sets a superset of cells to 1.0 |
| `SynthSun.PointSymmetric` | solarpatch/sun/synth_sun.py:19-21 | the mirror of an inside cell through `(CRPIX1, CRPIX2)` is inside too, when it is on the grid |
| `Scenarios.DiskCentre` | solarpatch/sun/synth_sun.py:19-22 | on a 10 x 10 grid with centre (5, 5) and radius 3, the four cells of rows and columns 4..5 are 1.0 |
| `Scenarios.EndToEndOrder` | solarpatch/sources/data_base.py:180-210 | two overlapping 2 x 2 patches succeed in both orders with the same canvas, and yield their boxes in patch order |
| `Scenarios.EndToEndCells` | solarpatch/sources/data_base.py:195-210 | in that run the three foreground cells end at the larger code, and the cell under the zero pixel keeps 1.0 |
| `Scenarios.NaNCellStaysNaN` | solarpatch/sources/data_base.py:205-210 | a foreground pixel over a NaN cell outside the disk leaves it NaN |
| `Scenarios.TieShortensSlice` | solarpatch/sources/data_base.py:129-210 | a 3-row patch at row offset 3.5 gets a 2-row slice (`rint(3.5) = 4`, `rint(6.5) = 6`) and raises `IndexError` although it fits the canvas |
| `Scenarios.TieLengthensSlice` | solarpatch/sources/data_base.py:129-210 | at row offset 2.5 the slice has 4 rows for a 3-row patch, and the merge succeeds |

## Left out

- Network and file I/O: the `drms` queries, the process-pool bitmap downloads, `fits.getdata`, and the trimming of `T_OBS` into the observation date. These are external calls.
- Concurrency: `_get_bboxes` runs `_one_patch` on a thread pool over one shared canvas. The model is the sequential fold in index order, for the entries (which `executor.map` returns in input order) and for the canvas alike. The read of the slice (solarpatch/sources/data_base.py:205-207) and the write (solarpatch/sources/data_base.py:210) are separate statements with no lock, so two threads merging overlapping patches can both read the old cell and the later write can put a lower code over a higher one. The "never overwritten by a lower code" reading of `MergeLaws.MergeMonotone`, and `DataSource.FinalCell` and `DataSource.OrderIndependent`, hold only for the sequential fold.
- DataSource.GetBboxes: stops at the first `IndexError`. In the threaded original the other patches are still merged, and the exception only surfaces when the lazy result iterator is consumed.
- DataSource.GetBboxes: requires every slice start to be non-negative (`Placeable`), because numpy would wrap a negative start around to the far edge and that wrap-around is not modelled. The code itself performs no check.
- DataSource.OnePatch: has the same `Placeable` requires, for the same reason.
- Compositing.UpdateDataWithPatch: takes the slice starts `y1` and `x1` as `nat`, so a negative start, which numpy would wrap around, is outside the model.
- SynthSun.DataGen: requires `CDELT1 != 0`. numpy would divide by zero to an infinite or NaN radius, and that case is not modelled.
- Floating point: offsets, radii and HARPNUM are exact reals. float64 rounding of `rows - CRPIX - CRPIX + H` and of the squared distances is not modelled. `np.rint` ties are decided on the exact value.
- Rendering: `plot`, its colour boundaries, text overlays and legend, the plotting helpers, and the colormap constants. The rectangle's styling arguments (`hatch`, `fill`, `snap`, `lw`) are not modelled either: the model keeps only its anchor, width and height.
- The data-source subclass registry and the instrument name predicates are left out: they are string comparisons tied to class definition.
- There is no code recoder for a second instrument: its table is commented out and the second data source has no bitmap logic. There is also no duplicate-HARPNUM check.
- `rotate_points` and `GenericSun.rotate` are left out (a trigonometric stub that does nothing). The `SynthSun` constructor is left out (its arity does not match `GenericSun.__init__`). `RealSun` is not part of this model.
