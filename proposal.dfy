/** The proposal tab of app/modules/tab_proposal.py: the map view of an
    area of interest, the vulnerable-cell grid of `_compute_grid_score`, and
    the single-selection state behind the area checkboxes. */
module Proposal {
  import opened Common
  import opened Grid
  import opened MapView

  /** The areas offered in the checkbox group. */
  const AoiValues: seq<string> := ["가창면", "하빈면", "소보면", "삼국유사면"]

  /** Grid side and buffer radii, in metres. */
  const CellSizeM: real := 100.0
  const BufHydrant: real := 100.0
  const BufStation: real := 4000.0

  /** A bounding box `(minx, miny, maxx, maxy)`. */
  datatype Bounds = Bounds(minx: real, miny: real, maxx: real, maxy: real)

  /** The box used when the area has no bounds: around Daegu. */
  const FallbackBounds: Bounds := Bounds(128.4, 35.7, 128.9, 36.0)

  /** A map centre and zoom. */
  datatype View = View(lat: real, lon: real, zoom: real)

  function Span(b: Bounds): real
  {
    Max(b.maxx - b.minx, b.maxy - b.miny)
  }

  /** `_bbox_center_zoom`: the midpoint of the area's box (or of the fallback
      box) and the tier of its larger side, zoomed out by 0.3. */
  function BboxCenterZoom(aoi: Option<Bounds>): (v: View)
    ensures var b := if aoi.Some? then aoi.value else FallbackBounds;
      v.lon - b.minx == b.maxx - v.lon && v.lat - b.miny == b.maxy - v.lat
    ensures v.zoom in {9.1, 9.5, 9.9, 10.3, 10.7, 11.1}
  {
    var b := if aoi.Some? then aoi.value else FallbackBounds;
    View((b.miny + b.maxy) / 2.0, (b.minx + b.maxx) / 2.0, ZoomTier(Span(b)) - 0.3)
  }

  /** A larger box never gets a larger zoom, and the box's centre lies in it. */
  lemma BboxZoomMonotone(a: Bounds, b: Bounds)
    requires Span(a) <= Span(b)
    ensures BboxCenterZoom(Some(b)).zoom <= BboxCenterZoom(Some(a)).zoom
    ensures a.minx <= a.maxx && a.miny <= a.maxy ==>
      a.minx <= BboxCenterZoom(Some(a)).lon <= a.maxx && a.miny <= BboxCenterZoom(Some(a)).lat <= a.maxy
  {
    ZoomTierMonotone(Span(a), Span(b));
  }

  /** Without bounds the view is the fallback box's: centre (35.85, 128.65)
      and zoom 9.1, its width 0.5 being above the widest threshold. */
  lemma FallbackView()
    ensures BboxCenterZoom(None) == View(35.85, 128.65, 9.1)
  {
  }

  /** `_buffer_union`: no union for an empty point set, otherwise the union of
      the points' buffers of radius `dist` (`buffer` stands for the
      reprojection, the buffering and the union). */
  function BufferUnion<P, U>(pts: seq<P>, dist: real, buffer: (seq<P>, real) -> U): (u: Option<U>)
    ensures u.None? <==> |pts| == 0
  {
    if |pts| == 0 then None else Some(buffer(pts, dist))
  }

  /** With no hydrant and no station every grid cell is kept. */
  lemma EmptyFacilitiesExcludeNothing<G, P, U>(cells: seq<Cell<G>>, buffer: (seq<P>, real) -> U,
                                               intersects: (G, U) -> bool)
    ensures KeptCells(cells, BufferUnion([], BufHydrant, buffer), BufferUnion([], BufStation, buffer), intersects)
      == cells
  {
    NoFacilitiesKeepsAll(cells, intersects);
  }

  /** A building's score here: both score columns, each with NaN as 0. */
  function ProposalScore<B>(b: Building<B>): (r: real)
    ensures b.mainUse.NaN? && b.age.NaN? ==> r == 0.0
    ensures b.mainUse.Num? && b.mainUse.x >= 0.0 && b.age.Num? && b.age.x >= 0.0 ==> r >= b.mainUse.x && r >= b.age.x
  {
    FillNa0(b.mainUse) + FillNa0(b.age)
  }

  /** `_compute_grid_score`: the grid over the area's (projected) bounds with
      ids by position, the `&=` exclusion mask, the early answer of 0.0 for
      every kept cell when there is no building or no kept cell, and
      otherwise the join, the per-cell group sum and the left merge. */
  method ComputeGridScore<G, B, P, U>(aoi: Bounds, clip: Square -> Option<G>, bld: seq<Building<B>>,
                                      hydPts: seq<P>, fsPts: seq<P>, buffer: (seq<P>, real) -> U,
                                      intersects: (G, U) -> bool, within: (B, G) -> bool)
    returns (out: seq<ScoredCell<G>>)
    ensures out == ScoreCells(
      KeptCells(WithIds(GenerateSquareGrid(aoi.minx, aoi.miny, aoi.maxx, aoi.maxy, CellSizeM, clip)),
        BufferUnion(hydPts, BufHydrant, buffer), BufferUnion(fsPts, BufStation, buffer), intersects),
      bld, within, ProposalScore)
  {
    var gs := GenerateSquareGrid(aoi.minx, aoi.miny, aoi.maxx, aoi.maxy, CellSizeM, clip);
    var grid := WithIds(gs);
    var hydUnion := BufferUnion(hydPts, BufHydrant, buffer);
    var fsUnion := BufferUnion(fsPts, BufStation, buffer);
    var mask := seq(|grid|, _ => true);
    if hydUnion.Some? {
      mask := seq(|grid|, i requires 0 <= i < |grid| => mask[i] && !intersects(grid[i].geom, hydUnion.value));
    }
    if fsUnion.Some? {
      mask := seq(|grid|, i requires 0 <= i < |grid| => mask[i] && !intersects(grid[i].geom, fsUnion.value));
    }
    MaskedKeptCells(grid, mask, hydUnion, fsUnion, intersects);
    var finalCells := Masked(grid, mask);
    if |bld| == 0 || |finalCells| == 0 {
      out := Map(finalCells, (c: Cell<G>) => ScoredCell(c, 0.0));
      return;
    }
    KeptCellsIdsAscend(gs, hydUnion, fsUnion, intersects);
    var joined := Sjoin(bld, finalCells, within);
    var cellScore := GroupSum(joined, ProposalScore);
    out := Merge(finalCells, cellScore);
    JoinScores(finalCells, bld, within, ProposalScore);
  }

  /** The value a multi-selection collapses to: the last value that was not
      selected before, or the last value when every one was. */
  function Picked(vals: seq<string>, prev: seq<string>): (v: string)
    requires |vals| > 0
    ensures v in vals
    ensures (forall j :: 0 <= j < |vals| ==> vals[j] in prev) ==> v == vals[|vals| - 1]
    ensures (exists j :: 0 <= j < |vals| && vals[j] !in prev) ==>
      v !in prev && exists i :: 0 <= i < |vals| && vals[i] == v && forall j :: i < j < |vals| ==> vals[j] in prev
  {
    var newly := Filter(vals, (x: string) => x !in prev);
    FilterLast(vals, (x: string) => x !in prev);
    if |newly| > 0 then newly[|newly| - 1] else vals[|vals| - 1]
  }

  /** The two state cells of the tab's server: the checked area and the
      area applied to the map. */
  class AoiSelection {
    var current: seq<string>
    var applied: seq<string>

    /** Exactly one area is checked. */
    predicate Valid()
      reads this
    {
      |current| == 1
    }

    constructor ()
      ensures current == [AoiValues[0]] && applied == [AoiValues[0]]
      ensures Valid()
    {
      current := [AoiValues[0]];
      applied := [AoiValues[0]];
    }

    /** `_enforce_single`: an emptied group is set back to the previous
        choice, a multi-selection collapses to the newly checked value, a
        single selection is adopted. Returns the value sent back to the
        checkbox group, if any. */
    method EnforceSingle(vals: seq<string>) returns (echo: Option<seq<string>>)
      requires Valid()
      modifies this
      ensures Valid() && applied == old(applied)
      ensures |vals| == 0 ==> current == old(current) && echo == Some(old(current))
      ensures |vals| == 1 ==> current == vals && echo == None
      ensures |vals| > 1 ==> current == [Picked(vals, old(current))] && echo == Some(current)
    {
      var prev := current;
      if |vals| == 0 {
        echo := Some(prev);
        return;
      }
      if |vals| > 1 {
        var picked := Picked(vals, prev);
        echo := Some([picked]);
        current := [picked];
      } else {
        echo := None;
        current := vals;
      }
    }

    /** `_apply_aoi`: the checked area becomes the applied one. */
    method ApplyAoi()
      requires Valid()
      modifies this
      ensures Valid() && applied == current && current == old(current)
    {
      applied := current;
    }
  }
}
