/** The per-building fire-risk scorers of Code/scoring.py: ordinal
    bucketing of parsed fields and the distance band scorers. The current
    year, which the source reads from the clock, is a parameter. */
module Scoring {
  import opened Common
  import opened Text
  import opened Parsers

  // ---------------------------------------------------------------------
  // The ordered-threshold reducer every tier chain is an instance of.

  /** How many of the thresholds `ts` the value `x` reaches (`t <= x`). */
  function Reached(x: int, ts: seq<int>): (n: nat)
    ensures n <= |ts|
  {
    if ts == [] then 0 else (if ts[0] <= x then 1 else 0) + Reached(x, ts[1..])
  }

  /** Reaching more is monotone in the value. */
  lemma {:induction false} ReachedMonotone(x: int, y: int, ts: seq<int>)
    requires x <= y
    ensures Reached(x, ts) <= Reached(y, ts)
  {
    if ts != [] {
      ReachedMonotone(x, y, ts[1..]);
    }
  }

  /** How many of the band limits `ts` the distance `d` has passed: with
      inclusive bands (`d <= t` is still inside) a limit is passed when
      `t < d`; with strict bands (`d < t` is inside) when `t <= d`. */
  function Passed(d: real, ts: seq<real>, inclusive: bool): (n: nat)
    ensures n <= |ts|
  {
    if ts == [] then 0
    else (if (if inclusive then ts[0] < d else ts[0] <= d) then 1 else 0) + Passed(d, ts[1..], inclusive)
  }

  lemma {:induction false} PassedMonotone(d: real, e: real, ts: seq<real>, inclusive: bool)
    requires d <= e
    ensures Passed(d, ts, inclusive) <= Passed(e, ts, inclusive)
  {
    if ts != [] {
      PassedMonotone(d, e, ts[1..], inclusive);
    }
  }

  // ---------------------------------------------------------------------
  // Building age.

  /** Fewest years before a building is old enough for the next tier. */
  const AgeThresholds: seq<int> := [10, 20, 30, 40]

  /** The tier chain of `aging_score` for an already parsed year. */
  function AgeScoreOfYear(year: int, currentYear: int): (score: int)
    ensures 0 <= score <= 5
  {
    var age := currentYear - year;
    if age < 0 || year < 1800 then 0
    else if age >= 40 then 5
    else if age >= 30 then 4
    else if age >= 20 then 3
    else if age >= 10 then 2
    else if age >= 0 then 1
    else 0
  }

  /** `aging_score`: 0 for an unparseable, pre-1800 or future year, else tier 1..5. */
  function AgingScore(v: Raw, currentYear: int): (score: int)
    ensures 0 <= score <= 5
  {
    match ParseYear(v)
    case None => 0
    case Some(year) => AgeScoreOfYear(year, currentYear)
  }

  /** A usable year scores one more than the number of age thresholds met. */
  lemma AgeScoreIsRank(year: int, currentYear: int)
    requires 1800 <= year <= currentYear
    ensures AgeScoreOfYear(year, currentYear) == 1 + Reached(currentYear - year, AgeThresholds)
  {
    var age := currentYear - year;
    assert Reached(age, [40]) == (if 40 <= age then 1 else 0);
    assert [30, 40][1..] == [40];
    assert Reached(age, [30, 40]) == (if 30 <= age then 1 else 0) + Reached(age, [40]);
    assert [20, 30, 40][1..] == [30, 40];
    assert Reached(age, [20, 30, 40]) == (if 20 <= age then 1 else 0) + Reached(age, [30, 40]);
    assert [10, 20, 30, 40][1..] == [20, 30, 40];
  }

  /** The age score is positive exactly for a parsed year in 1800..currentYear. */
  lemma AgingScorePositiveIff(v: Raw, currentYear: int)
    ensures AgingScore(v, currentYear) > 0 <==>
      ParseYear(v).Some? && 1800 <= ParseYear(v).value <= currentYear
  {
  }

  /** Older buildings (earlier usable years) never score lower. */
  lemma {:induction false} AgingMonotone(older: int, newer: int, currentYear: int)
    requires 1800 <= older <= newer <= currentYear
    ensures AgeScoreOfYear(older, currentYear) >= AgeScoreOfYear(newer, currentYear)
  {
    AgeScoreIsRank(older, currentYear);
    AgeScoreIsRank(newer, currentYear);
    ReachedMonotone(currentYear - newer, currentYear - older, AgeThresholds);
  }

  // ---------------------------------------------------------------------
  // Floor counts.

  const FloorThresholds: seq<int> := [1, 5, 10, 20, 30]

  /** The tier chain of `aboveground_floors_score` for a parsed count. */
  function FloorTier(floors: int): (score: int)
    ensures 0 <= score <= 5
  {
    if floors >= 30 then 5
    else if floors >= 20 then 4
    else if floors >= 10 then 3
    else if floors >= 5 then 2
    else if floors >= 1 then 1
    else 0
  }

  /** `aboveground_floors_score`. */
  function AbovegroundFloorsScore(v: Raw): (score: int)
    ensures 0 <= score <= 5
    ensures ParseFloorCount(v).None? ==> score == 0
  {
    match ParseFloorCount(v)
    case None => 0
    case Some(floors) => FloorTier(floors)
  }

  lemma FloorTierIsRank(floors: int)
    ensures FloorTier(floors) == Reached(floors, FloorThresholds)
  {
    assert Reached(floors, [30]) == (if 30 <= floors then 1 else 0);
    assert [20, 30][1..] == [30];
    assert Reached(floors, [20, 30]) == (if 20 <= floors then 1 else 0) + Reached(floors, [30]);
    assert [10, 20, 30][1..] == [20, 30];
    assert Reached(floors, [10, 20, 30]) == (if 10 <= floors then 1 else 0) + Reached(floors, [20, 30]);
    assert [5, 10, 20, 30][1..] == [10, 20, 30];
    assert Reached(floors, [5, 10, 20, 30]) == (if 5 <= floors then 1 else 0) + Reached(floors, [10, 20, 30]);
    assert [1, 5, 10, 20, 30][1..] == [5, 10, 20, 30];
  }

  /** On numeric cells the floor score is non-decreasing in the value, and
      a negative count scores 0. */
  lemma {:induction false} AbovegroundMonotone(a: int, b: int)
    requires a <= b
    ensures AbovegroundFloorsScore(Int(a)) <= AbovegroundFloorsScore(Int(b))
    ensures a < 0 ==> AbovegroundFloorsScore(Int(a)) == 0
  {
    FloorTierIsRank(a);
    FloorTierIsRank(b);
    ReachedMonotone(a, b, FloorThresholds);
  }

  const BasementThresholds: seq<int> := [1, 2, 3]

  /** The tier chain of `basement_floors_score` for a parsed magnitude. */
  function BasementTier(floors: int): (score: int)
    ensures 0 <= score <= 3
  {
    if floors >= 3 then 3
    else if floors >= 2 then 2
    else if floors >= 1 then 1
    else 0
  }

  /** `basement_floors_score`. */
  function BasementFloorsScore(v: Raw): (score: int)
    ensures 0 <= score <= 3
  {
    match ParseBasementFloorCount(v)
    case None => 0
    case Some(floors) => BasementTier(floors)
  }

  /** The basement score is the parsed depth capped at 3. */
  lemma BasementScoreIsCappedDepth(v: Raw)
    ensures ParseBasementFloorCount(v).Some? ==>
      BasementFloorsScore(v) == (if ParseBasementFloorCount(v).value < 3 then ParseBasementFloorCount(v).value else 3)
    ensures ParseBasementFloorCount(v).None? ==> BasementFloorsScore(v) == 0
  {
  }

  lemma BasementTierIsRank(floors: int)
    ensures BasementTier(floors) == Reached(floors, BasementThresholds)
  {
    assert [1, 2, 3][1..] == [2, 3];
    assert [2, 3][1..] == [3];
    assert Reached(floors, [3]) == (if 3 <= floors then 1 else 0) + Reached(floors, []);
  }

  /** A basement given as n or as -n scores the same. */
  lemma BasementSignInsensitive(n: int)
    ensures BasementFloorsScore(Int(n)) == BasementFloorsScore(Int(-n))
  {
  }

  // ---------------------------------------------------------------------
  // Emergency elevators.

  /** `emergency_elevator_score`: five minus the count, floored at zero. */
  function EmergencyElevatorScore(v: Raw): (score: real)
    ensures 0.0 <= score <= 5.0
  {
    match ParseNonnegIntCount(v)
    case None => 0.0
    case Some(n) =>
      if n == 0 then 5.0
      else if n == 1 then 4.0
      else if n == 2 then 3.0
      else if n == 3 then 2.0
      else if n == 4 then 1.0
      else 0.0
  }

  /** The chain is `max(0, 5 - n)` for a parsed count and 0 for anything unparseable. */
  lemma ElevatorScoreFormula(v: Raw)
    ensures ParseNonnegIntCount(v).Some? ==>
      var n := ParseNonnegIntCount(v).value;
      EmergencyElevatorScore(v) == (if n >= 5 then 0.0 else (5 - n) as real)
    ensures ParseNonnegIntCount(v).None? ==> EmergencyElevatorScore(v) == 0.0
  {
  }

  /** More elevators never score higher; a negative number scores 0. */
  lemma ElevatorMonotone(a: int, b: int)
    requires 0 <= a <= b
    ensures EmergencyElevatorScore(Int(b)) <= EmergencyElevatorScore(Int(a))
    ensures EmergencyElevatorScore(Int(-a - 1)) == 0.0
  {
    ElevatorScoreFormula(Int(a));
    ElevatorScoreFormula(Int(b));
  }

  // ---------------------------------------------------------------------
  // Distance bands.

  const StationLimits: seq<real> := [1000.0, 3000.0, 5000.0, 7000.0, 9000.0]
  const HydrantLimits: seq<real> := [30.0, 60.0, 90.0, 120.0, 150.0]

  /** `firestation_distance_score` on one value. The conditions are strict
      (`d < 1000` ...); NaN fails every comparison and, as the code has no
      NaN re-mask, falls through to the default like a far distance. */
  function FirestationDistanceScore(d: Float, capOverMax: bool, invalidToNan: bool): (r: Float)
  {
    var a := if invalidToNan && d.Num? && d.x < 0.0 then NaN else d;
    var default := if capOverMax then Num(5.0) else NaN;
    if a.NaN? then default
    else if a.x < 1000.0 then Num(1.0)
    else if a.x < 3000.0 then Num(2.0)
    else if a.x < 5000.0 then Num(3.0)
    else if a.x < 7000.0 then Num(4.0)
    else if a.x < 9000.0 then Num(5.0)
    else default
  }

  /** `hydrant_distance_score` on one value: inclusive bands (`d <= 30` ...),
      and a NaN (or a negative turned into NaN) stays NaN. */
  function HydrantDistanceScore(d: Float, capOverMax: bool, invalidToNan: bool): (r: Float)
  {
    var a := if invalidToNan && d.Num? && d.x < 0.0 then NaN else d;
    var default := if capOverMax then Num(5.0) else NaN;
    if a.NaN? then NaN
    else if a.x <= 30.0 then Num(1.0)
    else if a.x <= 60.0 then Num(2.0)
    else if a.x <= 90.0 then Num(3.0)
    else if a.x <= 120.0 then Num(4.0)
    else if a.x <= 150.0 then Num(5.0)
    else default
  }

  /** Station scores lie in 1..5; they are NaN only without the cap, and then
      exactly for NaN, for negatives when those are invalid, and from 9000 m on. */
  lemma StationScoreRange(d: Float, capOverMax: bool, invalidToNan: bool)
    ensures var r := FirestationDistanceScore(d, capOverMax, invalidToNan);
      (r.Num? ==> 1.0 <= r.x <= 5.0)
      && (r.NaN? <==> !capOverMax && (d.NaN? || (invalidToNan && d.x < 0.0) || d.x >= 9000.0))
  {
  }

  /** Hydrant scores lie in 1..5; they are NaN exactly for NaN, for negatives
      when those are invalid, and beyond 150 m without the cap. */
  lemma HydrantScoreRange(d: Float, capOverMax: bool, invalidToNan: bool)
    ensures var r := HydrantDistanceScore(d, capOverMax, invalidToNan);
      (r.Num? ==> 1.0 <= r.x <= 5.0)
      && (r.NaN? <==> d.NaN? || (invalidToNan && d.x < 0.0) || (!capOverMax && d.x > 150.0))
  {
  }

  /** Inside the bands a station score is one plus the number of limits
      reached: the limits themselves belong to the farther band. */
  lemma StationScoreIsBand(d: real)
    requires 0.0 <= d < 9000.0
    ensures FirestationDistanceScore(Num(d), true, true) == Num(1.0 + Passed(d, StationLimits, false) as real)
  {
    assert Passed(d, [9000.0], false) == 0;
    assert [7000.0, 9000.0][1..] == [9000.0];
    assert Passed(d, [7000.0, 9000.0], false) == (if 7000.0 <= d then 1 else 0);
    assert [5000.0, 7000.0, 9000.0][1..] == [7000.0, 9000.0];
    assert Passed(d, [5000.0, 7000.0, 9000.0], false) == (if 5000.0 <= d then 1 else 0) + Passed(d, [7000.0, 9000.0], false);
    assert [3000.0, 5000.0, 7000.0, 9000.0][1..] == [5000.0, 7000.0, 9000.0];
    assert Passed(d, [3000.0, 5000.0, 7000.0, 9000.0], false) == (if 3000.0 <= d then 1 else 0) + Passed(d, [5000.0, 7000.0, 9000.0], false);
    assert StationLimits[1..] == [3000.0, 5000.0, 7000.0, 9000.0];
  }

  /** Inside the bands a hydrant score is one plus the number of limits
      exceeded: the limits themselves belong to the nearer band. */
  lemma HydrantScoreIsBand(d: real)
    requires 0.0 <= d <= 150.0
    ensures HydrantDistanceScore(Num(d), true, true) == Num(1.0 + Passed(d, HydrantLimits, true) as real)
  {
    assert Passed(d, [150.0], true) == 0;
    assert [120.0, 150.0][1..] == [150.0];
    assert Passed(d, [120.0, 150.0], true) == (if 120.0 < d then 1 else 0);
    assert [90.0, 120.0, 150.0][1..] == [120.0, 150.0];
    assert Passed(d, [90.0, 120.0, 150.0], true) == (if 90.0 < d then 1 else 0) + Passed(d, [120.0, 150.0], true);
    assert [60.0, 90.0, 120.0, 150.0][1..] == [90.0, 120.0, 150.0];
    assert Passed(d, [60.0, 90.0, 120.0, 150.0], true) == (if 60.0 < d then 1 else 0) + Passed(d, [90.0, 120.0, 150.0], true);
    assert HydrantLimits[1..] == [60.0, 90.0, 120.0, 150.0];
  }

  /** Both distance scores are non-decreasing in the distance (with the cap). */
  lemma {:induction false} DistanceScoresMonotone(d: real, e: real)
    requires 0.0 <= d <= e
    ensures FirestationDistanceScore(Num(d), true, true).x <= FirestationDistanceScore(Num(e), true, true).x
    ensures HydrantDistanceScore(Num(d), true, true).x <= HydrantDistanceScore(Num(e), true, true).x
  {
    if e < 9000.0 {
      StationScoreIsBand(d);
      StationScoreIsBand(e);
      PassedMonotone(d, e, StationLimits, false);
    } else if d < 9000.0 {
      StationScoreIsBand(d);
    }
    if e <= 150.0 {
      HydrantScoreIsBand(d);
      HydrantScoreIsBand(e);
      PassedMonotone(d, e, HydrantLimits, true);
    } else if d <= 150.0 {
      HydrantScoreIsBand(d);
    }
  }

  /** The station scorer does not re-mask NaN: with the cap, a missing or
      negative station distance scores like the farthest band. */
  lemma StationMissingScoresFar(d: Float)
    requires d.NaN? || d.x < 0.0
    ensures FirestationDistanceScore(d, true, true) == Num(5.0)
    ensures HydrantDistanceScore(d, true, true) == NaN
  {
  }
}
