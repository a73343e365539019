/** The composite fire-risk score of one building (Code/scoring.py, the
    script body): the eight sub-scores computed column by column with the
    scorers' default flags, then added up left to right without weights. */
module Composite {
  import opened Common
  import opened Parsers
  import opened Scoring
  import opened Tables

  /** The eight input columns of one building-register row. The two
      distances are numeric CSV columns, so they are floats or NaN. */
  datatype BuildingRow = BuildingRow(
    approvalYear: Raw,      // 사용승인년도
    floorsAbove: Raw,       // 지상층수
    floorsBelow: Raw,       // 지하층수
    mainUse: Raw,           // 주용도코드명
    structure: Raw,         // 구조코드명
    elevators: Raw,         // 비상용승강기수
    stationDist: Float,     // 소방서거리
    hydrantDist: Float)     // 소화전거리

  /** The sub-score columns the script adds. */
  datatype SubScores = SubScores(
    aging: int, above: int, basement: int,
    mainUse: real, structure: real, elevator: real,
    station: Float, hydrant: Float)

  /** Each sub-score column, with `firestation_distance_score` and
      `hydrant_distance_score` at their defaults (cap and invalid-to-NaN on). */
  function Scores(row: BuildingRow, currentYear: int): (s: SubScores)
    ensures 0 <= s.aging <= 5 && 0 <= s.above <= 5 && 0 <= s.basement <= 3
    ensures s.mainUse in MainUseValues && s.structure in StructureValues
    ensures 0.0 <= s.elevator <= 5.0
    ensures s.station.Num? && 1.0 <= s.station.x <= 5.0
    ensures s.hydrant.NaN? <==> row.hydrantDist.NaN? || row.hydrantDist.x < 0.0
    ensures s.hydrant.Num? ==> 1.0 <= s.hydrant.x <= 5.0
  {
    StationScoreRange(row.stationDist, true, true);
    HydrantScoreRange(row.hydrantDist, true, true);
    SubScores(
      AgingScore(row.approvalYear, currentYear),
      AbovegroundFloorsScore(row.floorsAbove),
      BasementFloorsScore(row.floorsBelow),
      MainUseScoreExact(row.mainUse),
      StructureScore(row.structure),
      EmergencyElevatorScore(row.elevators),
      FirestationDistanceScore(row.stationDist, true, true),
      HydrantDistanceScore(row.hydrantDist, true, true))
  }

  /** `종합점수`: the column sum in the script's order; pandas propagates NaN. */
  function CompositeScore(s: SubScores): (r: Float)
  {
    Add(Add(Add(Add(Add(Add(Add(Num(s.aging as real), Num(s.above as real)),
      Num(s.basement as real)), Num(s.mainUse)), Num(s.structure)),
      Num(s.elevator)), s.station), s.hydrant)
  }

  /** The composite is exactly the unweighted sum of the eight sub-scores
      when both distance scores are defined, and NaN otherwise. */
  lemma CompositeIsExactSum(s: SubScores)
    ensures CompositeScore(s).Num? <==> s.station.Num? && s.hydrant.Num?
    ensures CompositeScore(s).Num? ==>
      CompositeScore(s).x == Sum([s.aging as real, s.above as real, s.basement as real,
        s.mainUse, s.structure, s.elevator, s.station.x, s.hydrant.x])
  {
    if s.station.Num? && s.hydrant.Num? {
      var xs := [s.aging as real, s.above as real, s.basement as real,
        s.mainUse, s.structure, s.elevator, s.station.x, s.hydrant.x];
      SumOfEight(xs);
    }
  }

  lemma SumOfEight(xs: seq<real>)
    requires |xs| == 8
    ensures Sum(xs) == xs[0] + xs[1] + xs[2] + xs[3] + xs[4] + xs[5] + xs[6] + xs[7]
  {
    var t1, t2, t3, t4 := xs[1..], xs[2..], xs[3..], xs[4..];
    var t5, t6, t7 := xs[5..], xs[6..], xs[7..];
    assert t1[1..] == t2 && t2[1..] == t3 && t3[1..] == t4 && t4[1..] == t5;
    assert t5[1..] == t6 && t6[1..] == t7 && t7[1..] == [];
    assert Sum(t7) == xs[7];
    assert Sum(t6) == xs[6] + xs[7];
    assert Sum(t5) == xs[5] + xs[6] + xs[7];
    assert Sum(t4) == xs[4] + xs[5] + xs[6] + xs[7];
    assert Sum(t3) == xs[3] + xs[4] + xs[5] + xs[6] + xs[7];
    assert Sum(t2) == xs[2] + xs[3] + xs[4] + xs[5] + xs[6] + xs[7];
  }

  /** With the default flags a building's composite is defined exactly when
      its hydrant distance is a non-negative number: the station scorer
      never yields NaN there. */
  lemma CompositeDefinedIff(row: BuildingRow, currentYear: int)
    ensures CompositeScore(Scores(row, currentYear)).Num? <==>
      row.hydrantDist.Num? && row.hydrantDist.x >= 0.0
  {
    CompositeIsExactSum(Scores(row, currentYear));
  }

  /** A defined composite lies between 2 (both distance scores are at
      least 1) and 42 = 5 + 5 + 3 + 9 + 5 + 5 + 5 + 5. */
  lemma CompositeRange(row: BuildingRow, currentYear: int)
    ensures var r := CompositeScore(Scores(row, currentYear));
      r.Num? ==> 2.0 <= r.x <= 42.0
  {
    var s := Scores(row, currentYear);
    TableValueBounds(s.mainUse, s.structure);
    SubScoreSumRange(s);
  }

  lemma TableValueBounds(m: real, st: real)
    requires m in MainUseValues && st in StructureValues
    ensures 0.0 <= m <= 9.0 && 0.0 <= st <= 5.0
  {
  }

  /** The sum of sub-scores within their ranges lies between 2 and 42. */
  lemma SubScoreSumRange(s: SubScores)
    requires 0 <= s.aging <= 5 && 0 <= s.above <= 5 && 0 <= s.basement <= 3
    requires 0.0 <= s.mainUse <= 9.0 && 0.0 <= s.structure <= 5.0 && 0.0 <= s.elevator <= 5.0
    requires s.station.Num? ==> 1.0 <= s.station.x <= 5.0
    requires s.hydrant.Num? ==> 1.0 <= s.hydrant.x <= 5.0
    ensures CompositeScore(s).Num? ==> 2.0 <= CompositeScore(s).x <= 42.0
  {
    CompositeIsExactSum(s);
  }

  /** Changing only the approval year to an earlier usable one never lowers
      the composite. */
  lemma CompositeOlderNotLower(row: BuildingRow, older: int, newer: int, currentYear: int)
    requires 1800 <= older <= newer <= currentYear
    requires row.hydrantDist.Num? && row.hydrantDist.x >= 0.0
    ensures CompositeScore(Scores(row.(approvalYear := Int(older)), currentYear)).x
      >= CompositeScore(Scores(row.(approvalYear := Int(newer)), currentYear)).x
  {
    AgingMonotone(older, newer, currentYear);
    CompositeIsExactSum(Scores(row.(approvalYear := Int(older)), currentYear));
    CompositeIsExactSum(Scores(row.(approvalYear := Int(newer)), currentYear));
  }
}
