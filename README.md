# Daegu fire-risk zones: a Dafny model of the scoring and coverage core

This project models the core of the Daegu fire-risk analysis in Dafny 4.11.

Every building in the city's building register gets a composite fire-risk score. The score is the unweighted sum of eight ordinal sub-scores:

- the building's age;
- above-ground floors;
- basement floors;
- primary use;
- structure material;
- emergency elevators;
- distance to the nearest fire station;
- distance to the nearest hydrant.

The part of `Code/scoring.py` that turns raw register cells into those scores is modelled. That means the tolerant text parsers (`_parse_year` and the floor and count parsers), the tier chains, the two lookup tables and the composite column sum.

On top of the scores the applications build coverage views. Each view splits an area into 100 m squares and keeps the cells outside the 100 m hydrant buffer and the 4 km station buffer, then adds up, per cell, the scores of the buildings inside it. The model covers:

- **`app/modules/tab_proposal.py`:** the grid, the exclusion mask, the per-cell sum, the map view and the single-choice area selection.
- **`Code/building_mapping2.py`:** the script variant of the same pipeline.
- **`app/modules/tab_notes2.py`:** the chunked nearest-distance search, the coordinate filter and the guard that fills missing distance columns.
- **`app/modules/tab_analysis.py`:** the district views:
  - name normalisation;
  - the bounding box and zoom of a district;
  - the right-hand map's zoom offset;
  - the point loaders;
  - the border-line map;
  - detection of the dong-level property that names the district;
  - the combined `gu|dong` key and its split.

## How the model is laid out

- **Value types.** A cell value is `Parsers.Raw`: missing, an int, a float, a float NaN or text. A numeric column entry is `Common.Float`, a real or NaN. `Common.Add` propagates NaN as pandas does, and `Common.FillNa0` is `fillna(0)`.
- **Pure code becomes functions.** Parsers, scorers, tables, the composite, the grid pipeline, the name normaliser and the loaders are functions. Each has lemmas that state what its result means, for example:
  - ranks over threshold lists;
  - monotonicity;
  - exact membership of filtered rows;
  - round trips;
  - the agreement between two pipelines.
- **Loops become methods.** `_nearest_distance_batch` fills an array chunk by chunk. `_bbox_center_zoom_for_gu`, `_build_border_lines_map` and `_detect_dong_gu_prop` also work by loops. Each of these is a method with loop invariants, proved against a specification function such as `GuBox`, `BorderMap`, `KeysOf`, `ValuesOf` or `Overlap`.
- **Mutable state becomes a class.** The two reactive state cells of the proposal tab are the fields of `AoiSelection`.
- **Outside code becomes parameters.** Geometry predicates (`intersects`, `within`, `clip`), the buffer-and-union step, the haversine kernel and the current year are parameters of the members that need them.

Some member names below are helpers that split one source function into verifiable steps. `WidenRings`, `WidenPolys` and `AppendRings` are the innermost loops of the GeoJSON walkers. `SampleKeys`, `CandidateKeys`, `NormValues` and `BestCandidate` are the four loops of `_detect_dong_gu_prop`.

## Model

| member | source | states |
|---|---|---|
| Parsers.Trunc | Code/scoring.py:17-18 | `int()` of a float truncates toward zero: the result is within one of the value, on the side nearer zero |
| Text.Search | Code/scoring.py:34 | `re.search` finds nothing exactly when no position matches the pattern; otherwise it returns the leftmost matching position |
| Text.SearchInt | Code/scoring.py:34-36 | `int(m.group(1))` of a search: none exactly when no position matches; otherwise the capture at the leftmost match, and that is the capture of any leftmost match named; only the signed pattern `-?\d+` can give a negative |
| Text.StripPadded | Code/scoring.py:21 | `strip()` of text padded with whitespace on both sides, whose own ends are not whitespace, is that text |
| Text.FirstDigitRunText | app/modules/tab_analysis.py:127 | `str.extract(r"(\d+)")` yields a non-empty digit string exactly when the `\d+` search matches, and its value is that search's capture |
| Text.NatText | app/modules/tab_analysis.py:127 | `str()` of a non-negative int is a non-empty digit string whose value is that int |
| Parsers.ParseYear | Code/scoring.py:6-38 | missing and NaN give no year; an int is its own year; a float gives its truncation; blank text gives none; other text, with its commas removed, gives the truncated value when it is a `[+-]?\d+(\.\d+)?` literal, and otherwise the capture of the leftmost four-digit run of the stripped text, or none |
| Parsers.DecimalTruncIsIntOfFloat | Code/scoring.py:25-31 | the numeric-text branch gives `int(float(text))`: the literal's value truncated |
| Parsers.ParseFloorCount | Code/scoring.py:66-94 | missing and NaN give none; an int or float gives its truncated value when that is non-negative and none otherwise; blank text gives none; other text gives the truncated literal, or else the leftmost `-?\d+` capture of the stripped text, and none when that number is negative or absent |
| Parsers.BasementCode | Code/scoring.py:134 | a match of `[Bb]\s*(\d+)\s*[Ff]?` on the whole text means the text is B or b, whitespace, a digit run, whitespace and an optional F or f, and the captured value is that digit run |
| Parsers.BasementCodeAcceptsShape | Code/scoring.py:134-136 | conversely, every text of that shape is a full match and gives its digit run |
| Parsers.ParseBasementFloorCount | Code/scoring.py:114-151 | missing and NaN give none; an int gives its absolute value and a float the absolute value of its truncation; blank text gives none; a full `B` code gives its digits; otherwise the leftmost `지하\s*(\d+)` capture; otherwise the absolute value of the leftmost `-?\d+` capture in the comma-free text; otherwise none; every depth is non-negative |
| Parsers.ParseNonnegIntCount | Code/scoring.py:317-334 | missing and NaN give none; an int or float gives its truncated value when that is non-negative and none otherwise; blank text and "nan" in any letter case give none; other text gives the leftmost `\d+` capture of the comma-free text, or none |
| Parsers.ParsersReadNatText | Code/scoring.py:21-29 | `str(n)` of a non-negative n, with any whitespace around it, reads back as n in all four parsers |
| ParserExamples.BasementSpellings | Code/scoring.py:114-151 | 3, -3, "B3", "b 3F", "지하3층" and "지하 3" all give basement depth 3 |
| ParserExamples.BasementB3 | Code/scoring.py:134-136 | "B3" goes through the full-match `B` pattern to depth 3 |
| ParserExamples.BasementB3F | Code/scoring.py:134-136 | "b 3F" (lower case, inner space, floor suffix) gives depth 3 |
| ParserExamples.UndergroundText | Code/scoring.py:129-141 | 지하, any whitespace, 3 and a tail that does not start with a digit gives depth 3 through the `지하\s*(\d+)` search |
| ParserExamples.UndergroundDepth | Code/scoring.py:139-141 | "지하3층" and "지하 3" give depth 3 |
| ParserExamples.YearLeadsText | Code/scoring.py:20-36 | four digits followed by text that starts with neither a digit nor a point, and holds no comma, is no literal: its year is those four digits |
| ParserExamples.YearOfDate | Code/scoring.py:33-36 | the date "1985-01-01" yields the year 1985 through the four-digit search |
| ParserExamples.YearOfGroupedDecimal | Code/scoring.py:25-31 | the comma-grouped decimal "1,985.0" yields 1985 |
| ParserExamples.GroupedDecimal | Code/scoring.py:27-29 | "1985.0" is a decimal literal whose truncation is 1985 |
| ParserExamples.FloorsOfText | Code/scoring.py:88-92 | "지상 12층" gives 12 floors through the signed-integer search |
| ParserExamples.CountIgnoresMinus | Code/scoring.py:329-332 | the count pattern has no sign, so "-3" counts 3 elevators |
| ParserExamples.BlankParsesToNothing | Code/scoring.py:20-23 | text of spaces only (like "") parses to nothing in all four parsers |
| Scoring.AgeScoreOfYear | Code/scoring.py:44-63 | the age tier of a parsed year lies in 0..5 |
| Scoring.AgingScore | Code/scoring.py:40-63 | `aging_score` lies in 0..5 |
| Scoring.AgeScoreIsRank | Code/scoring.py:51-61 | a usable year scores one plus the number of the thresholds 10, 20, 30 and 40 years that its age reaches |
| Scoring.AgingScorePositiveIff | Code/scoring.py:40-63 | the age score is positive exactly when a year parses and lies in 1800..current year |
| Scoring.AgingMonotone | Code/scoring.py:51-61 | an older usable year never scores lower |
| Scoring.FloorTier | Code/scoring.py:100-112 | the floor tier lies in 0..5 |
| Scoring.AbovegroundFloorsScore | Code/scoring.py:96-112 | the floor score lies in 0..5 and is 0 for an unparseable cell |
| Scoring.FloorTierIsRank | Code/scoring.py:100-112 | the floor tier is the number of the thresholds 1, 5, 10, 20 and 30 that the count reaches |
| Scoring.AbovegroundMonotone | Code/scoring.py:66-112 | on int cells the floor score is non-decreasing, and a negative count scores 0 |
| Scoring.BasementTier | Code/scoring.py:157-165 | the basement tier lies in 0..3 |
| Scoring.BasementFloorsScore | Code/scoring.py:153-165 | the basement score lies in 0..3 |
| Scoring.BasementScoreIsCappedDepth | Code/scoring.py:153-165 | the basement score is the parsed depth capped at 3, and 0 when nothing parses |
| Scoring.BasementTierIsRank | Code/scoring.py:157-165 | the basement tier counts the thresholds 1, 2 and 3 that are reached |
| Scoring.BasementSignInsensitive | Code/scoring.py:120-125 | an int depth n and -n score the same |
| Scoring.EmergencyElevatorScore | Code/scoring.py:336-352 | the elevator score lies in 0..5 |
| Scoring.ElevatorScoreFormula | Code/scoring.py:336-352 | the elevator chain is `max(0, 5 - n)` for a parsed count and 0 otherwise |
| Scoring.ElevatorMonotone | Code/scoring.py:336-352 | more elevators never score higher; a negative int scores 0 |
| Scoring.StationScoreRange | Code/scoring.py:354-373 | a station score is NaN exactly when there is no cap and the distance is NaN, an invalid negative or at least 9000 m; otherwise it lies in 1..5 |
| Scoring.HydrantScoreRange | Code/scoring.py:375-397 | a hydrant score is NaN exactly for NaN input, for a negative input (when negatives are invalid) and for a distance past the last band without the cap; otherwise it lies in 1..5 |
| Scoring.StationScoreIsBand | Code/scoring.py:362-366 | inside 0..9000 m a station score is one plus the number of strict limits passed |
| Scoring.HydrantScoreIsBand | Code/scoring.py:383-387 | inside 0..150 m a hydrant score is one plus the number of inclusive limits passed |
| Scoring.DistanceScoresMonotone | Code/scoring.py:354-397 | with the cap, both distance scores are non-decreasing in the distance |
| Scoring.StationMissingScoresFar | Code/scoring.py:354-397 | a NaN or negative distance scores 5 for stations (no NaN re-mask) but stays NaN for hydrants |
| Tables.MainUseScoreExact | Code/scoring.py:222-234 | the primary-use score is one of the table's values or 0 |
| Tables.MainUseLookup | Code/scoring.py:222-234 | a label scores the table entry of its stripped text, and 0 when there is none |
| Tables.StructureKeywordScore | Code/scoring.py:300-312 | the keyword fallback yields a value of the structure scale |
| Tables.StructureScore | Code/scoring.py:286-315 | the structure score is a value of the structure scale |
| Tables.StructureTablePriority | Code/scoring.py:297-312 | an exact table entry wins; any other non-blank label gets the keyword score |
| Tables.OtherLabelUsesTable | Code/scoring.py:283 | "기타구조" scores 1 from the table while its keywords would give 0 |
| Tables.CementBlockUsesTable | Code/scoring.py:271 | "시멘트블럭조" scores 4 from the table while its keywords would give 0 |
| Tables.UnmappedWoodLabel | Code/scoring.py:301-302 | an unmapped label containing 목 gets the wood tier 5 whatever else it contains |
| Composite.Scores | Code/scoring.py:401-408 | every sub-score column lies in its range; the station score is always a number; the hydrant score is NaN exactly for a NaN or negative distance |
| Composite.CompositeIsExactSum | Code/scoring.py:409 | the composite is defined exactly when both distance scores are, and then equals the unweighted sum of the eight sub-scores |
| Composite.CompositeDefinedIff | Code/scoring.py:401-409 | with the default flags a building's composite is defined exactly when its hydrant distance is a non-negative number |
| Composite.SubScoreSumRange | Code/scoring.py:409 | eight sub-scores within their ranges add up to between 2 and 42 |
| Composite.CompositeRange | Code/scoring.py:401-409 | every defined composite lies between 2 and 42 |
| Composite.CompositeOlderNotLower | Code/scoring.py:401-409 | changing only the approval year to an earlier usable year never lowers the composite |
| Coordinates.ToNumeric | app/modules/tab_notes2.py:233-234 | `to_numeric(errors="coerce")` keeps numbers and turns missing cells and NaN into NaN |
| Coordinates.Coerce | app/modules/tab_notes2.py:233-234 | coercing a row keeps its other columns and its validity |
| Coordinates.FilterValid | app/modules/tab_notes2.py:232-236 | only rows with both coordinates in range remain |
| Coordinates.FilterValidMembership | app/modules/tab_notes2.py:232-236 | a row comes out exactly when it is the coerced form of a valid input row |
| Coordinates.FilterValidAppend | app/modules/tab_notes2.py:232-236 | the filter keeps row order: it distributes over concatenation |
| Coordinates.FilterValidIdempotent | app/modules/tab_notes2.py:232-236 | applying the filter twice is the same as applying it once |
| Notes2.MinDist | app/modules/tab_notes2.py:53 | the row minimum is at most every distance and equals one of them |
| Notes2.RangeStep | app/modules/tab_notes2.py:44 | `range(start, stop, step)`: it starts at start, advances by step, stays below stop, and the next step would reach it |
| Notes2.ChunksInBounds | app/modules/tab_notes2.py:44-45 | every chunk is a non-empty slice of `0..N` |
| Notes2.ChunksCover | app/modules/tab_notes2.py:44-53 | every query index lies in some chunk |
| Notes2.ChunksDisjoint | app/modules/tab_notes2.py:44-53 | no query index lies in two chunks |
| Notes2.NearestDistanceBatch | app/modules/tab_notes2.py:35-54 | each output entry is the least distance from its query to any reference; a negative chunk leaves every entry NaN |
| Notes2.FillDistanceIfMissing | app/modules/tab_notes2.py:246-259 | a missing or all-NaN column is filled with nearest distances when references exist; otherwise the column is unchanged |
| Notes2.ValidLatLon | app/modules/tab_notes2.py:229-237 | without both columns every row is kept with NaN coordinates; otherwise only valid rows remain |
| Notes2.ValidLatLonExact | app/modules/tab_notes2.py:229-237 | with the columns, a row is kept exactly when it is a coerced valid input row, and filtering again changes nothing |
| MapView.ZoomTier | app/modules/tab_proposal.py:69-75 | the zoom is one of the six tiers: 9.4 exactly for a span above 0.45 and 11.4 exactly for a span at most 0.08 |
| MapView.ZoomTierMonotone | app/modules/tab_proposal.py:69-75 | a wider span never gets a larger zoom |
| MapView.ZoomTierBoundaries | app/modules/tab_proposal.py:70-75 | each threshold value itself belongs to the narrower tier |
| Grid.Arange | app/modules/tab_proposal.py:101-102 | `np.arange` has ceil((stop - start)/step) entries, the i-th being start + i*step |
| Grid.ArangeStopsBeforeStop | app/modules/tab_proposal.py:101-102 | every entry lies below stop, and one more step would reach it |
| Grid.Squares | app/modules/tab_proposal.py:104-107 | the x-major comprehension makes \|xs\|·\|ys\| squares |
| Grid.SquaresIndex | app/modules/tab_proposal.py:104-107 | the square at position i·\|ys\|+j has its corner at (xs[i], ys[j]) |
| Grid.SquaresAreGridPoints | app/modules/tab_proposal.py:104-107 | every square has the cell side and sits on an arange grid point |
| Grid.GenerateSquareGrid | app/modules/tab_proposal.py:98-110 | the clipped grid has at most as many cells as the arange product |
| Grid.Clipped | app/modules/tab_proposal.py:109 | clipping only drops squares, and every piece comes from a square |
| Grid.ClipKeepingAll | app/modules/tab_proposal.py:109 | a clip that keeps every square keeps their number |
| Grid.WithIds | app/modules/tab_proposal.py:154-155 | after `reset_index` each cell's id is its position |
| Grid.KeptCells | app/modules/tab_proposal.py:172-177 | the kept cells are grid cells |
| Grid.KeptCellsExact | app/modules/tab_proposal.py:172-177 | a cell is kept exactly when it intersects neither buffer union that exists |
| Grid.NoFacilitiesKeepsAll | app/modules/tab_proposal.py:172-177 | without either union every cell is kept |
| Grid.MaskedKeptCells | app/modules/tab_proposal.py:172-177 | the `&=` mask selects exactly the kept cells, in order |
| Grid.Masked | app/modules/tab_proposal.py:177 | `loc[mask]` never has more cells than the grid |
| Grid.OutsideOf | Code/building_mapping2.py:78-79 | one exclusion filter keeps only cells that do not touch the union |
| Grid.SuccessiveFiltersAreMask | Code/building_mapping2.py:78-79 | the script's two successive filters keep the same cells as the tab's mask |
| Grid.KeptCellsIdsAscend | app/modules/tab_proposal.py:154-177 | the cell ids ascend, so are unique, before and after the exclusion |
| Grid.BuildingRows | app/modules/tab_proposal.py:188 | one building's join rows pair it with the cells it lies within |
| Grid.Sjoin | app/modules/tab_proposal.py:188 | every join row pairs an input building with a cell that contains it |
| Grid.GroupSumAppend | app/modules/tab_proposal.py:190 | group sums add up over a concatenation of join rows |
| Grid.GroupSumAbsent | app/modules/tab_proposal.py:190 | an id that no join row carries has no group |
| Grid.BuildingRowsSum | app/modules/tab_proposal.py:188-190 | with unique ids, one building adds its score to exactly the cells that contain it |
| Grid.SjoinGroupSum | app/modules/tab_proposal.py:188-190 | grouping the whole join gives each cell the sum of its buildings' scores |
| Grid.Merge | app/modules/tab_proposal.py:193-194 | the left merge with `fillna(0)` keeps every cell in order and reads its group sum, or 0 |
| Grid.JoinScores | app/modules/tab_proposal.py:188-194 | join, group sum and merge together equal the per-cell score specification `ScoreCells` |
| Grid.ScoreCells | app/modules/tab_proposal.py:188-194 | every cell appears once, in order, with the sum of the scores of the buildings it contains |
| Grid.CellScoreSnoc | app/modules/tab_proposal.py:189-190 | one more building adds its score to the cells that contain it and nothing to the others |
| Grid.NoBuildingsScoresZero | app/modules/tab_proposal.py:179-181 | without buildings every cell scores 0 |
| Grid.PositiveScoreHasBuilding | app/modules/tab_proposal.py:188-194 | a cell with a non-zero sum contains at least one building |
| Grid.CellScoreNonNegative | app/modules/tab_proposal.py:189-190 | with non-negative scores a cell sum is non-negative, and positive when it contains a building scoring above 0 |
| Grid.VisibleCells | Code/building_mapping2.py:101 | visible cells are scored cells with a positive sum |
| Grid.VisibleCellsExact | Code/building_mapping2.py:101 | a scored cell is visible exactly when its sum is positive |
| Proposal.BboxCenterZoom | app/modules/tab_proposal.py:60-77 | the view is centred on the box (or the fallback box), and its zoom is a tier minus 0.3 |
| Proposal.BboxZoomMonotone | app/modules/tab_proposal.py:67-76 | a larger box never gets a larger zoom, and a well-formed box contains its centre |
| Proposal.FallbackView | app/modules/tab_proposal.py:63-76 | without bounds the view is centre (35.85, 128.65) at zoom 9.1 |
| Proposal.BufferUnion | app/modules/tab_proposal.py:158-166 | there is no union exactly when the point set is empty |
| Proposal.EmptyFacilitiesExcludeNothing | app/modules/tab_proposal.py:168-177 | with no hydrant and no station every grid cell is kept |
| Proposal.ProposalScore | app/modules/tab_proposal.py:189 | a building with two NaN scores adds 0; with non-negative scores it adds at least each one |
| Proposal.ComputeGridScore | app/modules/tab_proposal.py:151-195 | the output is every kept cell of the clipped grid, in order, with the sum of the (NaN-as-0) scores of the buildings it contains, and 0 on the early return |
| Proposal.Picked | app/modules/tab_proposal.py:321-322 | the picked value is one of the values: the last one not checked before, or the last value when all were |
| Proposal.AoiSelection.constructor | app/modules/tab_proposal.py:307-308 | both state cells start as the first area |
| Proposal.AoiSelection.EnforceSingle | app/modules/tab_proposal.py:312-326 | exactly one area stays checked: an emptied group is sent back the previous choice; a multi-selection collapses to the newly checked value and is echoed; a single value is adopted; the applied area is unchanged |
| Proposal.AoiSelection.ApplyAoi | app/modules/tab_proposal.py:330-331 | the applied area becomes the checked one |
| BuildingMapping.MappingScore | Code/building_mapping2.py:90-91 | a building with either score NaN adds 0 (NaN sum skipped by the group sum) |
| BuildingMapping.MapGrid | Code/building_mapping2.py:75-101 | the scored cells are the kept cells of the clipped grid with their building-score sums, and the visible ones are those with a positive sum |
| BuildingMapping.ScoresAgreeWhenDefined | Code/building_mapping2.py:90 | the script and the tab score a building alike when both scores are numbers, and differ when exactly one is NaN |
| BuildingMapping.CellScoresAgree | Code/building_mapping2.py:90-91 | when every building has both scores, the two pipelines give every cell the same sum |
| BuildingMapping.VisibleCellHasBuilding | Code/building_mapping2.py:101 | a cell shown on the map is a kept cell that contains at least one building |
| Analysis.NormName | app/modules/tab_analysis.py:47-54 | a missing value stays missing; otherwise no whitespace, bracket, dash or middle dot remains |
| Analysis.NormNameSteps | app/modules/tab_analysis.py:51-53 | the three substitutions applied in order equal a single deletion of all three classes |
| Analysis.NormNameKeeps | app/modules/tab_analysis.py:47-54 | a character survives exactly when it is in the input and not deleted |
| Analysis.NormNameIdempotent | app/modules/tab_analysis.py:47-54 | normalising twice is normalising once |
| Analysis.ZoomOffset | app/modules/tab_analysis.py:90-91 | the zoom plus the offset, clamped to [4, 16] |
| Analysis.ZoomOffsetMonotone | app/modules/tab_analysis.py:90-91 | the clamp keeps the order of zooms |
| Analysis.ComboKeyOf | app/modules/tab_analysis.py:227 | a combo key exists exactly when the gu property was detected and both names are non-empty, and it is `gu|dong` |
| Analysis.BarFrom | app/modules/tab_analysis.py:624 | the first `\|` at or after a position, or none |
| Analysis.SplitOnce | app/modules/tab_analysis.py:624-626 | `split("\|", 1)` fails exactly when there is no bar; otherwise head + "\|" + tail is the key, and the head has no bar |
| Analysis.ComboKeyRoundTrip | app/modules/tab_analysis.py:624-627 | splitting a combo key gives back both names when the gu name has no bar |
| Analysis.ComboKeyBarInGu | app/modules/tab_analysis.py:624-627 | a gu name containing a bar does not survive the round trip |
| Analysis.FirstPresent | app/modules/tab_analysis.py:99-100 | the first candidate column present, or none exactly when no candidate is present |
| Analysis.HydrantCode | app/modules/tab_analysis.py:125-129 | the facility code is a non-empty digit string |
| Analysis.HydrantCodeMeaning | app/modules/tab_analysis.py:125-129 | text gives its first digit run, or "0" without one; an int gives its magnitude's digits |
| Analysis.LoadPointsBasic | app/modules/tab_analysis.py:93-108 | every loaded point is valid, and without both coordinate columns there are none |
| Analysis.LoadHydrants | app/modules/tab_analysis.py:110-134 | every loaded hydrant is valid and carries a digit code; without both coordinate columns there are none |
| Analysis.LoadPointsExact | app/modules/tab_analysis.py:99-107 | a loaded point is exactly an in-range row of the picked columns, coerced |
| Analysis.LoadHydrantsExact | app/modules/tab_analysis.py:114-133 | a loaded hydrant is exactly an in-range row of the picked columns, coerced, whose code is the `HydrantCode` of its code cell, or "0" when there is no code column |
| AnalysisFeatures.ExtentFrom | app/modules/tab_analysis.py:57-61 | the accumulators only widen and enclose every position passed to `upd` |
| AnalysisFeatures.ExtentAttained | app/modules/tab_analysis.py:57-61 | for positions inside the initial bounds, each side of the box is some position's coordinate |
| AnalysisFeatures.FirstGuFrom | app/modules/tab_analysis.py:62-76 | the first feature with the key and coordinates, with none before it |
| AnalysisFeatures.WidenRings | app/modules/tab_analysis.py:70-71 | the polygon loops leave the extent of the positions so far plus the polygon's |
| AnalysisFeatures.WidenPolys | app/modules/tab_analysis.py:73-75 | the multipolygon loops leave the extent of all its positions |
| AnalysisFeatures.BboxCenterZoomForGu | app/modules/tab_analysis.py:56-88 | a proper box gives its midpoint, the tier of its larger side (at least 1e-6) and the box; otherwise the default view and no box |
| AnalysisFeatures.GuBoxMeaning | app/modules/tab_analysis.py:62-77 | without a match the box is empty; with one it encloses every position of the matched feature |
| AnalysisFeatures.BorderKey | app/modules/tab_analysis.py:151-155 | a stored key is non-empty and has some line points |
| AnalysisFeatures.AppendRings | app/modules/tab_analysis.py:159-162 | the ring loops append each ring's latitudes and longitudes followed by a None |
| AnalysisFeatures.BuildBorderLinesMap | app/modules/tab_analysis.py:148-171 | the method builds exactly `BorderMap`, feature by feature |
| AnalysisFeatures.RingStreamSeparators | app/modules/tab_analysis.py:159-162 | a polygon's lists hold one None per ring |
| AnalysisFeatures.PolysStreamSeparators | app/modules/tab_analysis.py:164-168 | a multipolygon's lists hold one None per ring of every polygon |
| AnalysisFeatures.BorderMapKeys | app/modules/tab_analysis.py:148-171 | a key is stored exactly when some feature carries it with a usable geometry |
| AnalysisFeatures.BorderMapLast | app/modules/tab_analysis.py:169-170 | a stored entry is the lines of the last feature that carries the key |
| AnalysisFeatures.LinesShape | app/modules/tab_analysis.py:157-168 | the two lists have equal length, None at the same places, one per ring |
| AnalysisFeatures.KeysOfMeaning | app/modules/tab_analysis.py:180-181 | a key is sampled exactly when one of the first features has it |
| AnalysisFeatures.ValuesOfMeaning | app/modules/tab_analysis.py:186-190 | a value counts exactly when some feature's property normalises to it and it is non-empty |
| AnalysisFeatures.SampleKeys | app/modules/tab_analysis.py:179-181 | `prop_keys` are the property keys of the first 20 features |
| AnalysisFeatures.CandidateKeys | app/modules/tab_analysis.py:182 | the fixed names come first, then each sampled key not among them, once |
| AnalysisFeatures.NormValues | app/modules/tab_analysis.py:186-190 | `vals` is the set of non-empty normalised values of the candidate |
| AnalysisFeatures.BestSoFarStep | app/modules/tab_analysis.py:191-193 | the strict `>` update keeps the first candidate of greatest overlap so far |
| AnalysisFeatures.BestCandidate | app/modules/tab_analysis.py:184-194 | no answer exactly when no candidate overlaps; otherwise the first candidate of greatest overlap |
| AnalysisFeatures.DetectDongGuProp | app/modules/tab_analysis.py:173-194 | the candidates are the fixed names, then the other sampled keys; the answer is the first candidate of greatest overlap with the district keys, or none when nothing overlaps |

## Left out

- Floating point. Floats are reals with an explicit NaN. Infinities, rounding and ints beyond 2^53 that pass through `float()` are not modelled.
- Text matching. `\d` is the ASCII digits and `\s`/`strip()` is Python's whitespace set. Non-ASCII digits that Python's `re` also accepts are not modelled.
- `to_numeric`. It is modelled for numbers, NaN, missing cells and plain decimal text. Exponent notation and the other numeric spellings pandas accepts become NaN.
- Text conversion of cells. `str()` is modelled for text, for ints of either sign (the magnitude's digits, a minus sign being no digit) and for floats (the facility code).
- Analysis.HydrantCode: a float cell is spelled in positional notation, as the digits of its truncated magnitude. Python writes a float with magnitude below 1e-4 (other than 0) or at least 1e16 in exponent notation, so `str(1e-05)` is "1e-05" with code "1" where the model gives "0", and `str(1e16)` is "1e+16" with code "1" where the model gives "10000000000000000".
- Date handling. `date.today().year` is the `currentYear` parameter.
- Geometry. Reprojection between EPSG:4326 and EPSG:5186, `gpd.clip`, `intersects`, `within`, the buffers and `unary_union`/`dissolve` are parameters. The haversine kernel is the `dist` parameter. The model does not check their geometric meaning.
- Grid.GenerateSquareGrid: the clip is a function on squares that keeps their order. It is not an actual polygon intersection. Keeping the order is an assumption of the model: `gpd.clip` with its default `sort=False` does not promise the input row order, so in the source the `cell_id`s given by `reset_index` at `app/modules/tab_proposal.py:154-155` follow an unspecified order.
- Notes2.NearestDistanceBatch: a chunk of 0 is excluded by its precondition because `range` raises on a zero step. An empty reference set with queries is excluded because `np.min` raises on an empty axis.
- Scoring.FirestationDistanceScore: with the default flags, a NaN or negative station distance falls through to the default score 5.0. `Scoring.StationMissingScoresFar` states this.
- Set iteration order. Python iterates `prop_keys`, a set, in an arbitrary order. `CandidateKeys` picks into that order nondeterministically, so its contract holds for every order.
- I/O: CSV, shapefile and GeoJSON reading, the encoding fallbacks, the plots and maps, and the Shiny reactive wiring other than the two state cells of the proposal tab.
- Analysis.LoadPointsBasic and Analysis.LoadHydrants: the loaders return rows as values. The columns of the empty frame they return without coordinate columns are not modelled.
- GeoJSON positions with a third (altitude) coordinate are not modelled. Nor is a property value that is not a string.
- The `drop(columns=["index_right", "index_left"])` step is a no-op on these frames and is not modelled.
- AnalysisFeatures.BuildBorderLinesMap: `app/modules/tab_analysis.py:158-159` iterate `coords` with no `not coords` guard, so a Polygon or MultiPolygon without "coordinates" raises `TypeError`. The `Geometry` datatype always carries coordinates and cannot represent that input, so the error is not modelled.
- AnalysisFeatures.DetectDongGuProp also returns its candidate list, so that its contract can speak of it.
- Analysis.NormName is defined as one deletion of the three character classes. `Analysis.NormNameSteps` proves it equal to the source's three substitutions in order.
- `_filter_points_in_poly` and the station and hydrant selection reactives are not part of this model, and neither are the reactive calcs of the proposal and analysis tabs.
