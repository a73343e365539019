/** The square-grid vulnerability aggregation shared by
    app/modules/tab_proposal.py and Code/building_mapping2.py: candidate
    squares enumerated x-major over two `np.arange` ranges, cell ids by
    position, the exclusion of cells that touch an infrastructure buffer,
    and the per-cell sum of building scores. Geometry (reprojection,
    clipping, buffers, `intersects`, `within`) enters as parameters. */
module Grid {
  import opened Common

  // ---------------------------------------------------------------------
  // Enumeration.

  /** Python's `math.ceil` on a positive real. */
  function Ceil(x: real): (n: int)
    requires x > 0.0
    ensures n as real >= x && (n - 1) as real < x && n >= 1
  {
    if x == x.Floor as real then x.Floor else x.Floor + 1
  }

  /** The length of `np.arange(start, stop, step)`: `ceil((stop - start) / step)`, or 0. */
  function ArangeCount(start: real, stop: real, step: real): nat
    requires step > 0.0
  {
    if stop <= start then 0 else Ceil((stop - start) / step)
  }

  /** `np.arange(start, stop, step)`. */
  function Arange(start: real, stop: real, step: real): (r: seq<real>)
    requires step > 0.0
    ensures |r| == ArangeCount(start, stop, step)
    ensures forall i :: 0 <= i < |r| ==> r[i] == start + i as real * step
  {
    seq(ArangeCount(start, stop, step), i requires 0 <= i => start + i as real * step)
  }

  /** The range stops before `stop`, and the next step would reach it. */
  lemma ArangeStopsBeforeStop(start: real, stop: real, step: real)
    requires step > 0.0
    ensures var r := Arange(start, stop, step);
      (forall i :: 0 <= i < |r| ==> start <= r[i] < stop)
      && start + |r| as real * step >= stop
  {
    var r := Arange(start, stop, step);
    if stop > start {
      var q := (stop - start) / step;
      assert q * step == stop - start;
      assert |r| == Ceil(q);
      forall i | 0 <= i < |r| ensures start <= r[i] < stop {
        assert r[i] == start + i as real * step;
        assert i as real < q;
        EntryInRange(start, stop, step, q, i as real);
      }
      assert |r| as real >= q;
      ScaleAtLeast(|r| as real, q, step);
      assert |r| as real * step >= stop - start;
    }
  }

  /** An entry `start + k * step` with `0 <= k < (stop - start) / step` lies in [start, stop). */
  lemma EntryInRange(start: real, stop: real, step: real, q: real, k: real)
    requires step > 0.0 && q * step == stop - start && 0.0 <= k < q
    ensures start <= start + k * step < stop
  {
    ScaleLess(k, q, step);
    ScaleLess(0.0, k, step);
    assert k * step < stop - start;
    assert 0.0 <= k * step;
  }

  lemma ScaleLess(a: real, b: real, c: real)
    requires a <= b && c > 0.0
    ensures a * c <= b * c && (a < b ==> a * c < b * c)
  {
  }

  lemma ScaleAtLeast(a: real, b: real, c: real)
    requires a >= b && c > 0.0
    ensures a * c >= b * c
  {
  }

  /** A candidate square: lower-left corner `(x, y)` and side `side`; its
      ring is (x, y), (x + side, y), (x + side, y + side), (x, y + side). */
  datatype Square = Square(x: real, y: real, side: real)

  /** `[square(x, y) for x in xs for y in ys]`: x-major. */
  function Squares(xs: seq<real>, ys: seq<real>, side: real): (r: seq<Square>)
    ensures |r| == |xs| * |ys|
  {
    if xs == [] then []
    else
      var rest := Squares(xs[1..], ys, side);
      assert |xs| * |ys| == |ys| + (|xs| - 1) * |ys|;
      Map(ys, y => Square(xs[0], y, side)) + rest
  }

  /** The square at position `i * |ys| + j` has corner `(xs[i], ys[j])`. */
  lemma {:induction false} SquaresIndex(xs: seq<real>, ys: seq<real>, side: real, i: int, j: int)
    requires 0 <= i < |xs| && 0 <= j < |ys|
    ensures i * |ys| + j < |Squares(xs, ys, side)|
    ensures Squares(xs, ys, side)[i * |ys| + j] == Square(xs[i], ys[j], side)
  {
    var row := Map(ys, y => Square(xs[0], y, side));
    var rest := Squares(xs[1..], ys, side);
    assert Squares(xs, ys, side) == row + rest;
    if i > 0 {
      SquaresIndex(xs[1..], ys, side, i - 1, j);
      assert i * |ys| + j == |ys| + ((i - 1) * |ys| + j);
      assert xs[i] == xs[1..][i - 1];
    }
  }

  /** Every candidate square is one of the enumerated corners with the given side. */
  lemma SquaresAreGridPoints(xs: seq<real>, ys: seq<real>, side: real, k: int)
    requires 0 <= k < |Squares(xs, ys, side)|
    ensures var q := Squares(xs, ys, side)[k];
      q.side == side && 0 <= k / |ys| < |xs| && q.x == xs[k / |ys|] && q.y == ys[k % |ys|]
  {
    var n := |ys|;
    PositiveFactor(k, |xs|, n);
    var i, j := k / n, k % n;
    DivBelow(k, |xs|, n);
    SquaresIndex(xs, ys, side, i, j);
  }

  lemma PositiveFactor(k: int, a: int, n: int)
    requires 0 <= k < a * n && a >= 0 && n >= 0
    ensures n > 0
  {
  }

  lemma DivBelow(k: int, a: int, n: int)
    requires n > 0 && 0 <= k < a * n
    ensures 0 <= k / n < a && k == (k / n) * n + k % n
  {
    var i := k / n;
    if i >= a {
      MulGrows(a, i, n);
    }
  }

  lemma MulGrows(a: int, b: int, c: int)
    requires 0 <= a <= b && c >= 0
    ensures a * c <= b * c
  {
  }

  /** `_generate_square_grid` / `generate_square_grid`: the squares over the
      bounds of the area, each clipped to it (and reprojected) by `clip`,
      which drops the squares outside. */
  function GenerateSquareGrid<G>(minx: real, miny: real, maxx: real, maxy: real, side: real,
                                 clip: Square -> Option<G>): (cells: seq<G>)
    requires side > 0.0
    ensures |cells| <= ArangeCount(minx, maxx, side) * ArangeCount(miny, maxy, side)
  {
    Clipped(Squares(Arange(minx, maxx, side), Arange(miny, maxy, side), side), clip)
  }

  /** The clipped pieces of the squares that `clip` keeps, in order. */
  function Clipped<G>(qs: seq<Square>, clip: Square -> Option<G>): (r: seq<G>)
    ensures |r| <= |qs|
    ensures forall g :: g in r ==> exists q :: q in qs && clip(q) == Some(g)
  {
    if qs == [] then []
    else (if clip(qs[0]).Some? then [clip(qs[0]).value] else []) + Clipped(qs[1..], clip)
  }

  /** A clip that keeps every square keeps the count `|xs| * |ys|`. */
  lemma {:induction false} ClipKeepingAll<G>(qs: seq<Square>, clip: Square -> Option<G>)
    requires forall q :: q in qs ==> clip(q).Some?
    ensures |Clipped(qs, clip)| == |qs|
  {
    if qs != [] {
      ClipKeepingAll(qs[1..], clip);
    }
  }

  // ---------------------------------------------------------------------
  // Cells, exclusion and scores.

  /** A grid cell after `reset_index(drop=True)` and `cell_id = index`. */
  datatype Cell<G> = Cell(id: nat, geom: G)

  function WithIds<G>(gs: seq<G>): (cells: seq<Cell<G>>)
    ensures |cells| == |gs|
    ensures forall i :: 0 <= i < |gs| ==> cells[i] == Cell(i, gs[i])
  {
    seq(|gs|, i requires 0 <= i < |gs| => Cell(i, gs[i]))
  }

  /** The cells are in strictly increasing id order (so ids are unique). */
  predicate IdsAscend<G>(cells: seq<Cell<G>>)
  {
    forall i, j :: 0 <= i < j < |cells| ==> cells[i].id < cells[j].id
  }

  lemma IdsAscendPrefix<G>(cells: seq<Cell<G>>)
    requires IdsAscend(cells) && cells != []
    ensures IdsAscend(cells[..|cells| - 1])
  {
    var init := cells[..|cells| - 1];
    assert forall i :: 0 <= i < |init| ==> init[i] == cells[i];
  }

  /** Filtering keeps the ids ascending: a kept cell still has a unique id. */
  lemma {:induction false} FilterKeepsIdsAscending<G>(cells: seq<Cell<G>>, p: Cell<G> -> bool)
    requires IdsAscend(cells)
    ensures IdsAscend(Filter(cells, p))
  {
    if cells != [] {
      FilterKeepsIdsAscending(cells[1..], p);
      var rest := Filter(cells[1..], p);
      FirstIdBelowKept(cells, p);
      assert Filter(cells, p) == (if p(cells[0]) then [cells[0]] else []) + rest;
      if p(cells[0]) {
        ConsAscends(cells[0], rest);
      } else {
        assert Filter(cells, p) == rest;
      }
    }
  }

  /** The first cell's id is below the id of every cell kept from the rest. */
  lemma FirstIdBelowKept<G>(cells: seq<Cell<G>>, p: Cell<G> -> bool)
    requires IdsAscend(cells) && cells != []
    ensures forall c :: c in Filter(cells[1..], p) ==> cells[0].id < c.id
  {
    forall c | c in Filter(cells[1..], p) ensures cells[0].id < c.id {
      FilterMembership(cells[1..], p, c);
      var j :| 0 <= j < |cells[1..]| && cells[1..][j] == c;
      assert cells[j + 1] == c;
    }
  }

  /** A cell whose id is below every id of an ascending sequence can go in front of it. */
  lemma ConsAscends<G>(c: Cell<G>, rest: seq<Cell<G>>)
    requires IdsAscend(rest) && forall d :: d in rest ==> c.id < d.id
    ensures IdsAscend([c] + rest)
  {
    var r := [c] + rest;
    forall i, j | 0 <= i < j < |r| ensures r[i].id < r[j].id {
      assert r[j] == rest[j - 1];
      if i > 0 {
        assert r[i] == rest[i - 1];
      } else {
        assert rest[j - 1] in rest;
      }
    }
  }

  /** A building point: its geometry and its two score columns. */
  datatype Building<B> = Building(geom: B, mainUse: Float, age: Float)

  /** The rows `sjoin(buildings, [cell], predicate="within")` produces for one cell. */
  function Joined<G, B>(c: Cell<G>, bs: seq<Building<B>>, within: (B, G) -> bool): seq<Building<B>>
  {
    Filter(bs, (b: Building<B>) => within(b.geom, c.geom))
  }

  /** `groupby("cell_id")["score"].sum()` for one cell, then the left merge
      with `fillna(0)`: the scores of the buildings within the cell, added;
      0.0 for a cell no building lies in. */
  function CellScore<G, B>(c: Cell<G>, bs: seq<Building<B>>, within: (B, G) -> bool,
                           score: Building<B> -> real): real
  {
    Sum(Map(Joined(c, bs, within), score))
  }

  /** A cell with its `score_sum`. */
  datatype ScoredCell<G> = ScoredCell(cell: Cell<G>, scoreSum: real)

  function ScoreCells<G, B>(cells: seq<Cell<G>>, bs: seq<Building<B>>, within: (B, G) -> bool,
                            score: Building<B> -> real): (r: seq<ScoredCell<G>>)
    ensures |r| == |cells|
    ensures forall i :: 0 <= i < |cells| ==> r[i] == ScoredCell(cells[i], CellScore(cells[i], bs, within, score))
  {
    Map(cells, (c: Cell<G>) => ScoredCell(c, CellScore(c, bs, within, score)))
  }

  /** Adding one more building adds its score to the cells it lies in. */
  lemma CellScoreSnoc<G, B>(c: Cell<G>, bs: seq<Building<B>>, b: Building<B>,
                            within: (B, G) -> bool, score: Building<B> -> real)
    ensures CellScore(c, bs + [b], within, score)
      == CellScore(c, bs, within, score) + (if within(b.geom, c.geom) then score(b) else 0.0)
  {
    var p := (x: Building<B>) => within(x.geom, c.geom);
    FilterAppend(bs, [b], p);
    assert Filter([b], p) == (if p(b) then [b] else []) + Filter([], p);
    MapAppend(Filter(bs, p), Filter([b], p), score);
    SumAppend(Map(Filter(bs, p), score), Map(Filter([b], p), score));
    if p(b) {
      assert Map([b], score) == [score(b)];
      assert Sum([score(b)]) == score(b) + Sum([]);
    }
  }

  /** Without buildings every cell scores 0. */
  lemma NoBuildingsScoresZero<G, B>(c: Cell<G>, within: (B, G) -> bool, score: Building<B> -> real)
    ensures CellScore(c, [], within, score) == 0.0
  {
  }

  /** A cell with a non-zero sum holds at least one building. */
  lemma PositiveScoreHasBuilding<G, B>(c: Cell<G>, bs: seq<Building<B>>, within: (B, G) -> bool,
                                       score: Building<B> -> real)
    requires CellScore(c, bs, within, score) != 0.0
    ensures exists b :: b in bs && within(b.geom, c.geom)
  {
    var joined := Joined(c, bs, within);
    assert joined != [];
    assert joined[0] in joined;
  }

  /** With non-negative scores, a cell that contains a building scoring more
      than 0 has a positive sum, and no sum is negative. */
  lemma {:induction false} CellScoreNonNegative<G, B>(c: Cell<G>, bs: seq<Building<B>>,
                                                      within: (B, G) -> bool, score: Building<B> -> real)
    requires forall b :: b in bs ==> score(b) >= 0.0
    ensures CellScore(c, bs, within, score) >= 0.0
    ensures (exists b :: b in bs && within(b.geom, c.geom) && score(b) > 0.0) ==>
      CellScore(c, bs, within, score) > 0.0
    decreases |bs|
  {
    if bs != [] {
      var init := bs[..|bs| - 1];
      var last := bs[|bs| - 1];
      assert bs == init + [last];
      CellScoreNonNegative(c, init, within, score);
      CellScoreSnoc(c, init, last, within, score);
      if exists b :: b in bs && within(b.geom, c.geom) && score(b) > 0.0 {
        var b :| b in bs && within(b.geom, c.geom) && score(b) > 0.0;
        if b != last {
          assert b in init;
        }
      }
    }
  }

  /** `~grid.intersects(union)` when there is a buffer union; no union
      (no facilities) excludes nothing. */
  predicate Outside<G, U>(g: G, union: Option<U>, intersects: (G, U) -> bool)
  {
    union.None? || !intersects(g, union.value)
  }

  /** The cells kept by the two exclusion masks, in order. */
  function KeptCells<G, U>(cells: seq<Cell<G>>, hyd: Option<U>, fs: Option<U>,
                           intersects: (G, U) -> bool): (r: seq<Cell<G>>)
    ensures forall c :: c in r ==> c in cells
  {
    Filter(cells, (c: Cell<G>) => Outside(c.geom, hyd, intersects) && Outside(c.geom, fs, intersects))
  }

  /** A cell is kept exactly when it touches neither buffer union. */
  lemma KeptCellsExact<G, U>(cells: seq<Cell<G>>, hyd: Option<U>, fs: Option<U>,
                             intersects: (G, U) -> bool, c: Cell<G>)
    ensures c in KeptCells(cells, hyd, fs, intersects) <==>
      c in cells && Outside(c.geom, hyd, intersects) && Outside(c.geom, fs, intersects)
  {
    FilterMembership(cells, (c: Cell<G>) => Outside(c.geom, hyd, intersects) && Outside(c.geom, fs, intersects), c);
  }

  /** Without any facility no cell is excluded. */
  lemma NoFacilitiesKeepsAll<G, U>(cells: seq<Cell<G>>, intersects: (G, U) -> bool)
    ensures KeptCells(cells, None, None, intersects) == cells
  {
    FilterAll(cells, (c: Cell<G>) => Outside(c.geom, None, intersects) && Outside(c.geom, None, intersects));
  }

  /** `cells[~cells.geometry.intersects(union)]`: one exclusion filter. */
  function OutsideOf<G, U>(cells: seq<Cell<G>>, union: U, intersects: (G, U) -> bool): (r: seq<Cell<G>>)
    ensures forall c :: c in r ==> c in cells && !intersects(c.geom, union)
  {
    Filter(cells, (c: Cell<G>) => !intersects(c.geom, union))
  }

  /** The two successive filters of Code/building_mapping2.py keep the same
      cells as the combined mask of app/modules/tab_proposal.py. */
  lemma {:induction false} SuccessiveFiltersAreMask<G, U>(cells: seq<Cell<G>>, hyd: U, fs: U,
                                                         intersects: (G, U) -> bool)
    ensures OutsideOf(OutsideOf(cells, hyd, intersects), fs, intersects)
      == KeptCells(cells, Some(hyd), Some(fs), intersects)
  {
    var p := (c: Cell<G>) => !intersects(c.geom, hyd);
    var q := (c: Cell<G>) => !intersects(c.geom, fs);
    if cells != [] {
      SuccessiveFiltersAreMask(cells[1..], hyd, fs, intersects);
      var head := if p(cells[0]) then [cells[0]] else [];
      FilterAppend(head, Filter(cells[1..], p), q);
      if p(cells[0]) {
        assert Filter(head, q) == (if q(cells[0]) then [cells[0]] else []) + Filter([], q);
      }
    }
  }

  /** Cell ids taken from positions ascend, and stay ascending after the exclusion. */
  lemma KeptCellsIdsAscend<G, U>(gs: seq<G>, hyd: Option<U>, fs: Option<U>, intersects: (G, U) -> bool)
    ensures IdsAscend(WithIds(gs))
    ensures IdsAscend(KeptCells(WithIds(gs), hyd, fs, intersects))
  {
    FilterKeepsIdsAscending(WithIds(gs),
      (c: Cell<G>) => Outside(c.geom, hyd, intersects) && Outside(c.geom, fs, intersects));
  }

  // ---------------------------------------------------------------------
  // The boolean mask, the spatial join, the group sum and the left merge.

  /** `grid.loc[mask]`: the cells whose mask entry is true, in order. */
  function Masked<G>(cells: seq<Cell<G>>, mask: seq<bool>): (r: seq<Cell<G>>)
    requires |mask| == |cells|
    ensures |r| <= |cells|
  {
    if cells == [] then [] else (if mask[0] then [cells[0]] else []) + Masked(cells[1..], mask[1..])
  }

  /** A mask that is true exactly where both exclusion tests pass selects the kept cells. */
  lemma {:induction false} MaskedKeptCells<G, U>(cells: seq<Cell<G>>, mask: seq<bool>, hyd: Option<U>,
                                                fs: Option<U>, intersects: (G, U) -> bool)
    requires |mask| == |cells|
    requires forall i :: 0 <= i < |cells| ==>
      mask[i] == (Outside(cells[i].geom, hyd, intersects) && Outside(cells[i].geom, fs, intersects))
    ensures Masked(cells, mask) == KeptCells(cells, hyd, fs, intersects)
  {
    if cells != [] {
      MaskedKeptCells(cells[1..], mask[1..], hyd, fs, intersects);
    }
  }

  /** One row of `sjoin(buildings, cells, predicate="within")`. */
  datatype JoinRow<G, B> = JoinRow(building: Building<B>, cell: Cell<G>)

  /** The join rows of one building: the cells it lies within, in cell order. */
  function BuildingRows<G, B>(b: Building<B>, cells: seq<Cell<G>>, within: (B, G) -> bool): (r: seq<JoinRow<G, B>>)
    ensures forall row :: row in r ==> row.building == b && row.cell in cells && within(b.geom, row.cell.geom)
  {
    if cells == [] then []
    else
      var last := cells[|cells| - 1];
      BuildingRows(b, cells[..|cells| - 1], within) + (if within(b.geom, last.geom) then [JoinRow(b, last)] else [])
  }

  /** `gpd.sjoin(buildings, cells, how="inner", predicate="within")`, building by building. */
  function Sjoin<G, B>(bs: seq<Building<B>>, cells: seq<Cell<G>>, within: (B, G) -> bool): (r: seq<JoinRow<G, B>>)
    ensures forall row :: row in r ==> row.building in bs && row.cell in cells && within(row.building.geom, row.cell.geom)
  {
    if bs == [] then []
    else Sjoin(bs[..|bs| - 1], cells, within) + BuildingRows(bs[|bs| - 1], cells, within)
  }

  /** The value a left merge followed by `fillna(0)` gives a key. */
  function Lookup(m: map<nat, real>, k: nat): real
  {
    if k in m then m[k] else 0.0
  }

  /** `groupby("cell_id")["score"].sum()`: per cell id, the scores of its join rows added. */
  function GroupSum<G, B>(rows: seq<JoinRow<G, B>>, score: Building<B> -> real): map<nat, real>
  {
    if rows == [] then map[]
    else
      var m := GroupSum(rows[..|rows| - 1], score);
      var row := rows[|rows| - 1];
      m[row.cell.id := Lookup(m, row.cell.id) + score(row.building)]
  }

  /** Group sums add up over a concatenation of join rows. */
  lemma {:induction false} GroupSumAppend<G, B>(p: seq<JoinRow<G, B>>, q: seq<JoinRow<G, B>>,
                                               score: Building<B> -> real, k: nat)
    ensures Lookup(GroupSum(p + q, score), k) == Lookup(GroupSum(p, score), k) + Lookup(GroupSum(q, score), k)
    decreases |q|
  {
    if q == [] {
      assert p + q == p;
    } else {
      var q' := q[..|q| - 1];
      assert (p + q)[..|p + q| - 1] == p + q';
      assert (p + q)[|p + q| - 1] == q[|q| - 1];
      GroupSumAppend(p, q', score, k);
    }
  }

  /** An id no join row carries has no group. */
  lemma {:induction false} GroupSumAbsent<G, B>(rows: seq<JoinRow<G, B>>, score: Building<B> -> real, k: nat)
    requires forall row :: row in rows ==> row.cell.id != k
    ensures k !in GroupSum(rows, score)
    decreases |rows|
  {
    if rows != [] {
      assert rows[|rows| - 1] in rows;
      GroupSumAbsent(rows[..|rows| - 1], score, k);
    }
  }

  /** With unique ids a building's join rows add its score to the cells it lies within, and to no other. */
  lemma {:induction false} BuildingRowsSum<G, B>(b: Building<B>, cells: seq<Cell<G>>, within: (B, G) -> bool,
                                                score: Building<B> -> real, c: Cell<G>)
    requires IdsAscend(cells) && c in cells
    ensures Lookup(GroupSum(BuildingRows(b, cells, within), score), c.id)
      == (if within(b.geom, c.geom) then score(b) else 0.0)
    decreases |cells|
  {
    var n := |cells|;
    var init, last := cells[..n - 1], cells[n - 1];
    assert cells == init + [last];
    var tail := if within(b.geom, last.geom) then [JoinRow(b, last)] else [];
    GroupSumAppend(BuildingRows(b, init, within), tail, score, c.id);
    SingleRowSum(b, last, score);
    IdsAscendPrefix(cells);
    if c == last {
      LastIdAbsent(b, cells, within, score);
    } else {
      EarlierCell(cells, c);
      BuildingRowsSum(b, init, within, score, c);
    }
  }

  /** One join row groups to its cell id with its building's score. */
  lemma SingleRowSum<G, B>(b: Building<B>, c: Cell<G>, score: Building<B> -> real)
    ensures GroupSum([JoinRow(b, c)], score) == map[c.id := score(b)]
  {
    assert [JoinRow(b, c)][..0] == [];
  }

  /** With ascending ids, a cell other than the last lies before it and has a smaller id. */
  lemma EarlierCell<G>(cells: seq<Cell<G>>, c: Cell<G>)
    requires IdsAscend(cells) && c in cells && c != cells[|cells| - 1]
    ensures c in cells[..|cells| - 1] && c.id < cells[|cells| - 1].id
  {
    var i :| 0 <= i < |cells| && cells[i] == c;
    assert i < |cells| - 1;
    assert cells[..|cells| - 1][i] == c;
  }

  /** With unique ids the last cell has no group among the join rows of the cells before it. */
  lemma LastIdAbsent<G, B>(b: Building<B>, cells: seq<Cell<G>>, within: (B, G) -> bool, score: Building<B> -> real)
    requires IdsAscend(cells) && cells != []
    ensures cells[|cells| - 1].id !in GroupSum(BuildingRows(b, cells[..|cells| - 1], within), score)
  {
    var init, last := cells[..|cells| - 1], cells[|cells| - 1];
    forall d | d in init ensures d.id != last.id {
      var i :| 0 <= i < |init| && init[i] == d;
      assert cells[i] == d;
    }
    forall row | row in BuildingRows(b, init, within) ensures row.cell.id != last.id {
    }
    GroupSumAbsent(BuildingRows(b, init, within), score, last.id);
  }

  /** Grouping the whole join by cell id gives each cell its score. */
  lemma {:induction false} SjoinGroupSum<G, B>(bs: seq<Building<B>>, cells: seq<Cell<G>>, within: (B, G) -> bool,
                                              score: Building<B> -> real, c: Cell<G>)
    requires IdsAscend(cells) && c in cells
    ensures Lookup(GroupSum(Sjoin(bs, cells, within), score), c.id) == CellScore(c, bs, within, score)
    decreases |bs|
  {
    if bs != [] {
      var init, b := bs[..|bs| - 1], bs[|bs| - 1];
      assert bs == init + [b];
      SjoinGroupSum(init, cells, within, score, c);
      GroupSumAppend(Sjoin(init, cells, within), BuildingRows(b, cells, within), score, c.id);
      BuildingRowsSum(b, cells, within, score, c);
      CellScoreSnoc(c, init, b, within, score);
    }
  }

  /** `cells.merge(cell_score, on="cell_id", how="left")` and `fillna(0)`: every
      cell stays, in order, and a cell without a group gets 0.0. */
  function Merge<G>(cells: seq<Cell<G>>, sums: map<nat, real>): (r: seq<ScoredCell<G>>)
    ensures |r| == |cells|
    ensures forall i :: 0 <= i < |cells| ==>
      r[i].cell == cells[i] && (cells[i].id !in sums ==> r[i].scoreSum == 0.0)
  {
    Map(cells, (c: Cell<G>) => ScoredCell(c, Lookup(sums, c.id)))
  }

  /** The join, the group sum and the left merge together give every cell,
      in order, the sum of the scores of the buildings within it. */
  lemma JoinScores<G, B>(cells: seq<Cell<G>>, bs: seq<Building<B>>, within: (B, G) -> bool,
                         score: Building<B> -> real)
    requires IdsAscend(cells)
    ensures Merge(cells, GroupSum(Sjoin(bs, cells, within), score)) == ScoreCells(cells, bs, within, score)
  {
    forall i | 0 <= i < |cells|
      ensures Merge(cells, GroupSum(Sjoin(bs, cells, within), score))[i] == ScoreCells(cells, bs, within, score)[i]
    {
      SjoinGroupSum(bs, cells, within, score, cells[i]);
    }
  }

  /** The cells shown on the map: those with a positive `score_sum`, in order. */
  function VisibleCells<G>(scored: seq<ScoredCell<G>>): (r: seq<ScoredCell<G>>)
    ensures |r| <= |scored| && forall s :: s in r ==> s in scored && s.scoreSum > 0.0
  {
    Filter(scored, (s: ScoredCell<G>) => s.scoreSum > 0.0)
  }

  /** Exactly the cells with a positive sum are visible. */
  lemma VisibleCellsExact<G>(scored: seq<ScoredCell<G>>, s: ScoredCell<G>)
    ensures s in VisibleCells(scored) <==> s in scored && s.scoreSum > 0.0
  {
    FilterMembership(scored, (s: ScoredCell<G>) => s.scoreSum > 0.0, s);
  }
}
