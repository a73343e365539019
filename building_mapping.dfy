/** The grid pipeline of the script Code/building_mapping2.py: the grid over
    the area with ids by position, the cells outside the hydrant buffer and
    then outside the station buffer, the per-cell sum of building scores,
    and the cells with a positive sum that the map shows. */
module BuildingMapping {
  import opened Common
  import opened Grid
  import Proposal

  /** Grid side, in metres. */
  const CellSize: real := 100.0

  /** A building's score here: `주용도점수 + 건물노후도점수` as pandas adds them
      (NaN when either is NaN), where the NaN is then skipped by the group
      sum, so it adds 0. */
  function MappingScore<B>(b: Building<B>): (r: real)
    ensures b.mainUse.NaN? || b.age.NaN? ==> r == 0.0
  {
    FillNa0(Add(b.mainUse, b.age))
  }

  /** The script's pipeline from line 75 to line 101, with the buffer unions
      of the hydrants and of the station as inputs. */
  method MapGrid<G, B, U>(minx: real, miny: real, maxx: real, maxy: real, clip: Square -> Option<G>,
                          fireUnion: U, stationUnion: U, buildings: seq<Building<B>>,
                          intersects: (G, U) -> bool, within: (B, G) -> bool)
    returns (finalWithScore: seq<ScoredCell<G>>, visible: seq<ScoredCell<G>>)
    ensures finalWithScore == ScoreCells(
      KeptCells(WithIds(GenerateSquareGrid(minx, miny, maxx, maxy, CellSize, clip)),
        Some(fireUnion), Some(stationUnion), intersects),
      buildings, within, MappingScore)
    ensures visible == VisibleCells(finalWithScore)
  {
    var gridCells := GenerateSquareGrid(minx, miny, maxx, maxy, CellSize, clip);
    var cells := WithIds(gridCells);
    var outsideFire := OutsideOf(cells, fireUnion, intersects);
    var finalCells := OutsideOf(outsideFire, stationUnion, intersects);
    SuccessiveFiltersAreMask(cells, fireUnion, stationUnion, intersects);
    KeptCellsIdsAscend(gridCells, Some(fireUnion), Some(stationUnion), intersects);
    var joined := Sjoin(buildings, finalCells, within);
    var cellScore := GroupSum(joined, MappingScore);
    finalWithScore := Merge(finalCells, cellScore);
    JoinScores(finalCells, buildings, within, MappingScore);
    visible := VisibleCells(finalWithScore);
  }

  /** The script and the proposal tab score a building alike when both of
      its score columns are numbers; with exactly one of them NaN the tab
      still counts the other while the script counts nothing. */
  lemma ScoresAgreeWhenDefined<B>(b: Building<B>)
    ensures b.mainUse.Num? && b.age.Num? ==> MappingScore(b) == Proposal.ProposalScore(b)
    ensures b.mainUse.NaN? && b.age.Num? ==> MappingScore(b) == 0.0 && Proposal.ProposalScore(b) == b.age.x
    ensures b.mainUse.Num? && b.age.NaN? ==> MappingScore(b) == 0.0 && Proposal.ProposalScore(b) == b.mainUse.x
  {
  }

  /** Hence the two cell sums agree on any cell when every building has both scores. */
  lemma {:induction false} CellScoresAgree<G, B>(c: Cell<G>, bs: seq<Building<B>>, within: (B, G) -> bool)
    requires forall b :: b in bs ==> b.mainUse.Num? && b.age.Num?
    ensures CellScore(c, bs, within, MappingScore) == CellScore(c, bs, within, Proposal.ProposalScore)
    decreases |bs|
  {
    if bs != [] {
      var init, last := bs[..|bs| - 1], bs[|bs| - 1];
      assert bs == init + [last];
      CellScoresAgree(c, init, within);
      CellScoreSnoc(c, init, last, within, MappingScore);
      CellScoreSnoc(c, init, last, within, Proposal.ProposalScore);
    }
  }

  /** A cell the map shows holds at least one building. */
  lemma VisibleCellHasBuilding<G, B>(cells: seq<Cell<G>>, bs: seq<Building<B>>, within: (B, G) -> bool,
                                     s: ScoredCell<G>)
    requires s in VisibleCells(ScoreCells(cells, bs, within, MappingScore))
    ensures s.cell in cells && exists b :: b in bs && within(b.geom, s.cell.geom)
  {
    var scored := ScoreCells(cells, bs, within, MappingScore);
    VisibleCellsExact(scored, s);
    var i :| 0 <= i < |scored| && scored[i] == s;
    PositiveScoreHasBuilding(cells[i], bs, within, MappingScore);
  }
}
