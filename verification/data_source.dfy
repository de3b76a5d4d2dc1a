/** The per-patch driver of `GenericDataSource` in
    solarpatch/sources/data_base.py: `_one_patch` places one patch with
    `_get_single_bbox`, merges it with `_update_data_with_patch` and returns
    `(rectangle, int(HARPNUM))`; `_get_bboxes` maps it over the patch indices.
    The thread pool's `map` keeps input order, so the list of results is a
    left fold over the patches; the shared canvas is modelled as the same
    sequential left fold, one whole merge after another. */
module DataSource {
  import opened Grid
  import opened Rounding
  import opened BoundingBox
  import opened Compositing
  import opened MergeLaws

  /** One patch: its bitmap, its reference pixel and its HARPNUM. */
  datatype Patch = Patch(bitmap: Bitmap, frame: Frame, harpnum: real)

  /** One element of `self.bbox`: the rectangle and the region number. */
  type Entry = (Rectangle, int)

  /** What `_get_bboxes` leaves behind: the boxes and the updated canvas. */
  datatype Composite = Composite(bbox: seq<Entry>, data: Canvas)

  /** `_get_single_bbox(i)` for patch `p` on a canvas with `s` rows. */
  function Placement(s: nat, keys: Frame, p: Patch): Bbox {
    SingleBbox(s, keys, p.frame, |p.bitmap|, Cols(p.bitmap))
  }

  /** The slice starts are not negative (numpy would wrap them around). */
  predicate Placeable(s: nat, keys: Frame, p: Patch) {
    Placement(s, keys, p).y1 >= 0 && Placement(s, keys, p).x1 >= 0
  }

  /** Every foreground pixel of `p` falls inside its slice of a `rows` x
      `cols` canvas, so merging it raises no `IndexError`. */
  ghost predicate Fits(rows: nat, cols: nat, keys: Frame, p: Patch)
    requires Placeable(rows, keys, p)
  {
    var b := Placement(rows, keys, p);
    FitsSlice(rows, cols, b.y1, b.y2, b.x1, b.x2, p.bitmap)
  }

  /** Canvas cell `(i, j)` lies under a foreground pixel of `p`. */
  predicate Covers(s: nat, keys: Frame, p: Patch, i: int, j: int) {
    var b := Placement(s, keys, p);
    Foreground(p.bitmap, i - b.y1, j - b.x1)
  }

  /** The code of `p` that lands on canvas cell `(i, j)`. */
  function CodeAt(s: nat, keys: Frame, p: Patch, i: int, j: int): int
    requires Covers(s, keys, p, i, j)
  {
    var b := Placement(s, keys, p);
    p.bitmap[i - b.y1][j - b.x1]
  }

  /** `_one_patch(i)`: place the patch, merge it, and return its entry. */
  function OnePatch(g: Canvas, keys: Frame, p: Patch): (r: Result<(Entry, Canvas)>)
    requires IsGrid(g) && Placeable(|g|, keys, p)
    ensures r.Ok? <==> Fits(|g|, Cols(g), keys, p)
    ensures r.Ok? ==> r.value.0 == (Placement(|g|, keys, p).rect, Trunc(p.harpnum))
    ensures r.Ok? ==> SameShape(g, r.value.1) && IsGrid(r.value.1) && Cols(r.value.1) == Cols(g)
    ensures r.Ok? ==> forall i, j :: 0 <= i < |g| && 0 <= j < |g[i]| ==>
              r.value.1[i][j] == if Covers(|g|, keys, p, i, j) then MaxCell(g[i][j], CodeAt(|g|, keys, p, i, j)) else g[i][j]
  {
    var regionNumber := Trunc(p.harpnum);
    var b := Placement(|g|, keys, p);
    match UpdateDataWithPatch(g, b.y1, b.y2, b.x1, b.x2, p.bitmap)
    case Err(e) => Err(e)
    case Ok(data) => Ok(((b.rect, regionNumber), data))
  }

  /** `_get_bboxes`: `_one_patch` over the patches in index order; the first
      `IndexError` ends the run. */
  function GetBboxes(g: Canvas, keys: Frame, ps: seq<Patch>): (r: Result<Composite>)
    requires IsGrid(g)
    requires forall p :: p in ps ==> Placeable(|g|, keys, p)
    decreases |ps|
    ensures r.Ok? ==> SameShape(g, r.value.data) && IsGrid(r.value.data) && Cols(r.value.data) == Cols(g)
  {
    if |ps| == 0 then Ok(Composite([], g))
    else
      match OnePatch(g, keys, ps[0])
      case Err(e) => Err(e)
      case Ok(step) =>
        assert forall p :: p in ps[1..] ==> p in ps;
        match GetBboxes(step.1, keys, ps[1..])
        case Err(e) => Err(e)
        case Ok(rest) => Ok(Composite([step.0] + rest.bbox, rest.data))
  }

  /** The box list has one entry per patch, entry `k` being the rectangle of
      patch `k` and its truncated HARPNUM, in patch order. */
  lemma {:induction false} BboxEntries(g: Canvas, keys: Frame, ps: seq<Patch>)
    requires IsGrid(g)
    requires forall p :: p in ps ==> Placeable(|g|, keys, p)
    ensures var r := GetBboxes(g, keys, ps);
      r.Ok? ==> |r.value.bbox| == |ps|
                && forall k :: 0 <= k < |ps| ==>
                     r.value.bbox[k] == (Placement(|g|, keys, ps[k]).rect, Trunc(ps[k].harpnum))
    decreases |ps|
  {
    var r := GetBboxes(g, keys, ps);
    if |ps| > 0 && r.Ok? {
      var step := OnePatch(g, keys, ps[0]).value;
      assert forall p :: p in ps[1..] ==> p in ps;
      BboxEntries(step.1, keys, ps[1..]);
      var rest := GetBboxes(step.1, keys, ps[1..]).value;
      assert r.value.bbox == [step.0] + rest.bbox;
      forall k | 1 <= k < |ps| ensures r.value.bbox[k] == (Placement(|g|, keys, ps[k]).rect, Trunc(ps[k].harpnum)) {
        assert ps[1..][k - 1] == ps[k];
      }
    }
  }

  /** The run succeeds exactly when every patch fits its slice: whether it
      fails does not depend on the canvas contents nor on patch order. */
  lemma {:induction false} BboxesOk(g: Canvas, keys: Frame, ps: seq<Patch>)
    requires IsGrid(g)
    requires forall p :: p in ps ==> Placeable(|g|, keys, p)
    ensures GetBboxes(g, keys, ps).Ok? <==> forall p :: p in ps ==> Fits(|g|, Cols(g), keys, p)
    decreases |ps|
  {
    if |ps| > 0 {
      assert forall p :: p in ps[1..] ==> p in ps;
      assert forall p :: p in ps ==> p == ps[0] || p in ps[1..];
      var step := OnePatch(g, keys, ps[0]);
      if step.Ok? {
        BboxesOk(step.value.1, keys, ps[1..]);
      }
    }
  }

  /** The codes that land on canvas cell `(i, j)` from any of the patches. */
  ghost function CoverCodes(s: nat, keys: Frame, ps: seq<Patch>, i: int, j: int): set<real> {
    set p | p in ps && Covers(s, keys, p, i, j) :: CodeAt(s, keys, p, i, j) as real
  }

  /** `m` is the largest of `v` and the values in `vals`. */
  ghost predicate IsMaxOf(m: real, v: real, vals: set<real>) {
    (m == v || m in vals) && v <= m && forall x :: x in vals ==> x <= m
  }

  /** The largest element is unique. */
  lemma MaxOfUnique(m: real, n: real, v: real, vals: set<real>)
    requires IsMaxOf(m, v, vals) && IsMaxOf(n, v, vals)
    ensures m == n
  {
  }

  /** Folding a set's maximum into the start value of a second maximum gives
      the maximum over both sets. */
  lemma MaxOfUnion(m: real, m1: real, v: real, first: set<real>, second: set<real>)
    requires IsMaxOf(m1, v, first) && IsMaxOf(m, m1, second)
    ensures IsMaxOf(m, v, first + second)
  {
  }

  /** The codes covering a cell from `ps` are those of its head plus those of
      its tail. */
  lemma CoverCodesCons(s: nat, keys: Frame, ps: seq<Patch>, i: int, j: int)
    requires |ps| > 0
    ensures CoverCodes(s, keys, ps, i, j)
            == (if Covers(s, keys, ps[0], i, j) then {CodeAt(s, keys, ps[0], i, j) as real} else {})
               + CoverCodes(s, keys, ps[1..], i, j)
  {
    assert forall p :: p in ps <==> p == ps[0] || p in ps[1..];
  }

  /** A successful run merges the first patch, then runs on the rest. */
  lemma GetBboxesStep(g: Canvas, keys: Frame, ps: seq<Patch>)
    requires IsGrid(g) && |ps| > 0
    requires forall p :: p in ps ==> Placeable(|g|, keys, p)
    requires GetBboxes(g, keys, ps).Ok?
    ensures OnePatch(g, keys, ps[0]).Ok?
    ensures var g1 := OnePatch(g, keys, ps[0]).value.1;
      && (forall p :: p in ps[1..] ==> Placeable(|g1|, keys, p))
      && GetBboxes(g1, keys, ps[1..]).Ok?
      && GetBboxes(g, keys, ps).value.data == GetBboxes(g1, keys, ps[1..]).value.data
  {
    assert forall p :: p in ps[1..] ==> p in ps;
  }

  /** One merge step, read at a single real-valued cell: the new value is the
      largest of the old one and the code the patch puts there, if any. */
  lemma StepCell(g: Canvas, keys: Frame, p: Patch, i: nat, j: nat)
    requires IsGrid(g) && Placeable(|g|, keys, p) && OnePatch(g, keys, p).Ok?
    requires i < |g| && j < |g[i]|
    ensures var c := OnePatch(g, keys, p).value.1[i][j];
      && (g[i][j].NoData? ==> c.NoData?)
      && (g[i][j].Val? ==> c.Val? && IsMaxOf(c.v, g[i][j].v, CoverCodes(|g|, keys, [p], i, j)))
  {
    CoverCodesCons(|g|, keys, [p], i, j);
    assert CoverCodes(|g|, keys, [p][1..], i, j) == {};
  }

  /** After the whole run a NaN cell is still NaN, and a real-valued cell
      holds the largest of its original value and every code any patch puts
      on it. */
  lemma {:induction false} FinalCell(g: Canvas, keys: Frame, ps: seq<Patch>, i: nat, j: nat)
    requires IsGrid(g)
    requires forall p :: p in ps ==> Placeable(|g|, keys, p)
    requires GetBboxes(g, keys, ps).Ok?
    requires i < |g| && j < |g[i]|
    ensures var d := GetBboxes(g, keys, ps).value.data;
      && (g[i][j].NoData? ==> d[i][j].NoData?)
      && (g[i][j].Val? ==> d[i][j].Val? && IsMaxOf(d[i][j].v, g[i][j].v, CoverCodes(|g|, keys, ps, i, j)))
    decreases |ps|
  {
    var d: Canvas := GetBboxes(g, keys, ps).value.data;
    if |ps| == 0 {
      assert CoverCodes(|g|, keys, ps, i, j) == {};
    } else {
      GetBboxesStep(g, keys, ps);
      var g1: Canvas := OnePatch(g, keys, ps[0]).value.1;
      FinalCell(g1, keys, ps[1..], i, j);
      StepCell(g, keys, ps[0], i, j);
      CoverCodesCons(|g|, keys, ps, i, j);
      CoverCodesCons(|g|, keys, [ps[0]], i, j);
      if g[i][j].Val? {
        MaxOfUnion(d[i][j].v, g1[i][j].v, g[i][j].v, CoverCodes(|g|, keys, [ps[0]], i, j), CoverCodes(|g|, keys, ps[1..], i, j));
      }
    }
  }

  /** Order independence: any reordering of the patches fails alike and,
      when it succeeds, leaves the same canvas. */
  lemma OrderIndependent(g: Canvas, keys: Frame, ps: seq<Patch>, qs: seq<Patch>)
    requires IsGrid(g)
    requires forall p :: p in ps ==> Placeable(|g|, keys, p)
    requires multiset(ps) == multiset(qs)
    ensures forall p :: p in qs ==> Placeable(|g|, keys, p)
    ensures GetBboxes(g, keys, ps).Ok? <==> GetBboxes(g, keys, qs).Ok?
    ensures GetBboxes(g, keys, ps).Ok? ==>
              GetBboxes(g, keys, ps).value.data == GetBboxes(g, keys, qs).value.data
  {
    assert forall p :: p in ps <==> p in qs by {
      forall p ensures p in ps <==> p in qs {
        assert p in ps <==> p in multiset(ps);
        assert p in qs <==> p in multiset(qs);
      }
    }
    BboxesOk(g, keys, ps);
    BboxesOk(g, keys, qs);
    var rp, rq := GetBboxes(g, keys, ps), GetBboxes(g, keys, qs);
    if rp.Ok? {
      forall i, j | 0 <= i < |g| && 0 <= j < |g[i]| ensures rp.value.data[i][j] == rq.value.data[i][j] {
        FinalCell(g, keys, ps, i, j);
        FinalCell(g, keys, qs, i, j);
        assert CoverCodes(|g|, keys, ps, i, j) == CoverCodes(|g|, keys, qs, i, j);
        if g[i][j].Val? {
          MaxOfUnique(rp.value.data[i][j].v, rq.value.data[i][j].v, g[i][j].v, CoverCodes(|g|, keys, ps, i, j));
        }
      }
      CanvasExt(rp.value.data, rq.value.data);
    }
  }
}
