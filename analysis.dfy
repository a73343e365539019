/** The small helpers of app/modules/tab_analysis.py that build the
    dashboard's keys and layers: the name normalisation behind every join
    key, the zoom clamp of the right-hand map, the `gu|dong` combo key and
    its split, and the two point loaders. */
module Analysis {
  import opened Common
  import opened Text
  import opened Parsers
  import opened Coordinates
  import opened MapView

  // ---------------------------------------------------------------------
  // norm_name

  /** The characters `norm_name` deletes: whitespace (`\s+`), the class
      `[(){}\[\]-]`, and the middle dot U+318D. */
  predicate Forbidden(c: char)
  {
    IsSpace(c) || c in "(){}[]-" || c == '\U{318D}'
  }

  /** The characters that survive. */
  predicate Kept(c: char)
  {
    !Forbidden(c)
  }

  /** `norm_name`: None for a missing value, otherwise the text without
      any deleted character. */
  function NormName(x: Option<string>): (r: Option<string>)
    ensures r.None? <==> x.None?
    ensures r.Some? ==> forall c :: c in r.value ==> !Forbidden(c)
  {
    if x.None? then None else Some(Filter(x.value, Kept))
  }

  predicate NotSpace(c: char)
  {
    !IsSpace(c)
  }

  predicate NotBracketOrDash(c: char)
  {
    c !in "(){}[]-"
  }

  predicate NotMiddleDot(c: char)
  {
    c != '\U{318D}'
  }

  predicate NotSpaceOrBracket(c: char)
  {
    NotSpace(c) && NotBracketOrDash(c)
  }

  /** The three substitutions of `norm_name`, applied in order. */
  function NormSteps(s: string): string
  {
    Filter(Filter(Filter(s, NotSpace), NotBracketOrDash), NotMiddleDot)
  }

  /** Deleting the three character classes one after the other is deleting
      them at once. */
  lemma NormNameSteps(s: string)
    ensures NormSteps(s) == NormName(Some(s)).value
  {
    FilterTwice(s, NotSpace, NotBracketOrDash, NotSpaceOrBracket);
    FilterTwice(s, NotSpaceOrBracket, NotMiddleDot, Kept);
  }

  /** A normalised name keeps exactly the characters that are not deleted. */
  lemma NormNameKeeps(s: string, c: char)
    ensures c in NormName(Some(s)).value <==> c in s && !Forbidden(c)
  {
    FilterMembership(s, Kept, c);
  }

  /** Normalising twice changes nothing. */
  lemma NormNameIdempotent(x: Option<string>)
    ensures NormName(NormName(x)) == NormName(x)
  {
    if x.Some? {
      FilterAll(NormName(x).value, Kept);
    }
  }

  // ---------------------------------------------------------------------
  // _zoom_offset

  /** The default offset of the right-hand map. */
  const ZoomRightOffset: real := -0.5

  /** `_zoom_offset`: `z + delta` clamped to [4, 16]. */
  function ZoomOffset(z: real, delta: real): (r: real)
    ensures 4.0 <= r <= 16.0
    ensures 4.0 <= z + delta <= 16.0 ==> r == z + delta
    ensures z + delta < 4.0 ==> r == 4.0
    ensures z + delta > 16.0 ==> r == 16.0
  {
    Max(4.0, Min(16.0, z + delta))
  }

  /** The clamp keeps the order of zooms. */
  lemma ZoomOffsetMonotone(a: real, b: real, delta: real)
    requires a <= b
    ensures ZoomOffset(a, delta) <= ZoomOffset(b, delta)
  {
  }

  // ---------------------------------------------------------------------
  // The gu|dong combo key (lines 227 and 624)

  function ComboKey(gu: string, dong: string): string
  {
    gu + "|" + dong
  }

  /** `_key_combo`: only when the gu property was detected and both
      normalised names are non-empty. */
  function ComboKeyOf(useCombo: bool, kGu: Option<string>, kDong: Option<string>): (r: Option<string>)
    ensures r.Some? <==> useCombo && kGu.Some? && kGu.value != "" && kDong.Some? && kDong.value != ""
    ensures r.Some? ==> r.value == ComboKey(kGu.value, kDong.value)
  {
    if useCombo && kGu.Some? && kGu.value != "" && kDong.Some? && kDong.value != ""
    then Some(ComboKey(kGu.value, kDong.value))
    else None
  }

  /** The position of the first `|` at or after `from`. */
  function BarFrom(s: string, from: nat): (r: Option<nat>)
    ensures r.Some? ==> from <= r.value < |s| && s[r.value] == '|'
    ensures forall j :: from <= j < |s| && (r.None? || j < r.value) ==> s[j] != '|'
    decreases |s| - from
  {
    if from >= |s| then None else if s[from] == '|' then Some(from) else BarFrom(s, from + 1)
  }

  /** `k_gu, k_dong = key.split("|", 1)`: the text before and after the first
      `|`; without one the unpacking raises ValueError, modelled as None. */
  function SplitOnce(s: string): (r: Option<(string, string)>)
    ensures r.None? <==> '|' !in s
    ensures r.Some? ==> r.value.0 + "|" + r.value.1 == s && '|' !in r.value.0
  {
    match BarFrom(s, 0)
    case None => None
    case Some(i) =>
      assert s[..i] + "|" + s[i + 1..] == s;
      assert forall j :: 0 <= j < i ==> s[..i][j] != '|';
      Some((s[..i], s[i + 1..]))
  }

  /** The split gives back both names when the gu name has no `|`. */
  lemma ComboKeyRoundTrip(gu: string, dong: string)
    requires '|' !in gu
    ensures SplitOnce(ComboKey(gu, dong)) == Some((gu, dong))
  {
    var s := ComboKey(gu, dong);
    assert forall j :: 0 <= j < |gu| ==> s[j] == gu[j];
    assert s[|gu|] == '|';
    assert BarFrom(s, 0) == Some(|gu|);
    assert s[..|gu|] == gu && s[|gu| + 1..] == dong;
  }

  /** A gu name containing `|` does not survive the round trip. */
  lemma ComboKeyBarInGu(gu: string, dong: string)
    requires '|' in gu
    ensures SplitOnce(ComboKey(gu, dong)) != Some((gu, dong))
  {
  }

  // ---------------------------------------------------------------------
  // _load_points_csv_basic and _load_hydrants_csv

  const LatCandidates: seq<string> := ["위도", "lat", "LAT", "Latitude"]
  const LonCandidates: seq<string> := ["경도", "lon", "LON", "Longitude"]
  const CodeCandidates: seq<string> := ["시설유형코드", "시설유형", "type_code", "코드"]

  /** `next((c for c in cands[from..] if c in columns), None)`. */
  function FirstPresentFrom(cands: seq<string>, columns: set<string>, from: nat): (r: Option<nat>)
    ensures r.Some? ==> from <= r.value < |cands| && cands[r.value] in columns
    ensures forall j :: from <= j < |cands| && (r.None? || j < r.value) ==> cands[j] !in columns
    decreases |cands| - from
  {
    if from >= |cands| then None
    else if cands[from] in columns then Some(from)
    else FirstPresentFrom(cands, columns, from + 1)
  }

  /** `next((c for c in cands if c in columns), None)`. */
  function FirstPresent(cands: seq<string>, columns: set<string>): (r: Option<string>)
    ensures r.None? <==> forall i :: 0 <= i < |cands| ==> cands[i] !in columns
    ensures r.Some? ==>
      exists i :: 0 <= i < |cands| && cands[i] == r.value && r.value in columns
        && forall j :: 0 <= j < i ==> cands[j] !in columns
  {
    match FirstPresentFrom(cands, columns, 0)
    case None => None
    case Some(i) => Some(cands[i])
  }

  /** A CSV table: its column names and its rows; a cell the row lacks reads as missing. */
  datatype Table = Table(columns: set<string>, rows: seq<map<string, Raw>>)

  function CellOf(row: map<string, Raw>, col: string): Raw
  {
    if col in row then row[col] else Missing
  }

  /** `astype(str).str.extract(r"(\d+)").fillna("0")` on one code cell: the
      first digit run of the cell's text, or "0". A missing cell reads as
      "nan", which has no digit; a float is written out in positional notation. */
  function HydrantCode(v: Raw): (code: string)
    ensures |code| > 0 && AllDigits(code)
  {
    match v
    case Str(s) => (match FirstDigitRunText(s) case Some(d) => d case None => "0")
    case Int(i) => NatText(if i < 0 then -i else i)
    case Float(x) => var t := Trunc(x); NatText(if t < 0 then -t else t)
    case Missing => "0"
    case FloatNaN => "0"
  }

  /** A text code is its first digit run, worth what `int` of that run is;
      without a digit it is "0". An integer's code is its magnitude, the
      minus sign not being a digit. */
  lemma HydrantCodeMeaning(s: string, i: int)
    ensures SearchInt(DigitRun, s).None? ==> HydrantCode(Str(s)) == "0"
    ensures SearchInt(DigitRun, s).Some? ==> DigitsValue(HydrantCode(Str(s))) == SearchInt(DigitRun, s).value
    ensures DigitsValue(HydrantCode(Int(i))) == if i < 0 then -i else i
  {
  }

  /** The coordinate column pair the loaders pick, when both are present. */
  function CoordColumns(t: Table): Option<(string, string)>
  {
    var lat := FirstPresent(LatCandidates, t.columns);
    var lon := FirstPresent(LonCandidates, t.columns);
    if lat.Some? && lon.Some? then Some((lat.value, lon.value)) else None
  }

  /** `_load_points_csv_basic`: no rows without both coordinate columns;
      otherwise the rows whose coerced coordinates are in range, in order. */
  function LoadPointsBasic(t: Table): (r: seq<Point<()>>)
    ensures forall q :: q in r ==> Valid(q)
    ensures CoordColumns(t).None? ==> r == []
  {
    match CoordColumns(t)
    case None => []
    case Some((latc, lonc)) =>
      FilterValid(Map(t.rows, (row: map<string, Raw>) => Point(CellOf(row, latc), CellOf(row, lonc), ())))
  }

  /** `_load_hydrants_csv`: as above, each row carrying its facility code. */
  function LoadHydrants(t: Table): (r: seq<Point<string>>)
    ensures forall q :: q in r ==> Valid(q) && |q.data| > 0 && AllDigits(q.data)
    ensures CoordColumns(t).None? ==> r == []
  {
    match CoordColumns(t)
    case None => []
    case Some((latc, lonc)) =>
      var code := FirstPresent(CodeCandidates, t.columns);
      var pts := Map(t.rows, (row: map<string, Raw>) =>
        Point(CellOf(row, latc), CellOf(row, lonc), if code.Some? then HydrantCode(CellOf(row, code.value)) else "0"));
      assert forall p :: p in pts ==> |p.data| > 0 && AllDigits(p.data);
      FilterValidMembershipData(pts);
      FilterValid(pts)
  }

  /** Filtering only drops rows, so a property of every row's data survives it. */
  lemma FilterValidMembershipData(pts: seq<Point<string>>)
    ensures forall q :: q in FilterValid(pts) ==> exists p :: p in pts && q.data == p.data
  {
    forall q | q in FilterValid(pts) ensures exists p :: p in pts && q.data == p.data {
      FilterValidMembership(pts, q);
      var i :| 0 <= i < |pts| && Valid(pts[i]) && q == Coerce(pts[i]);
      assert pts[i] in pts;
    }
  }

  /** A loaded point is exactly an in-range row of the picked columns, coerced. */
  lemma LoadPointsExact(t: Table, q: Point<()>)
    requires CoordColumns(t).Some?
    ensures var (latc, lonc) := CoordColumns(t).value;
      q in LoadPointsBasic(t) <==>
        exists i :: 0 <= i < |t.rows|
          && Valid(Point(CellOf(t.rows[i], latc), CellOf(t.rows[i], lonc), ()))
          && q == Coerce(Point(CellOf(t.rows[i], latc), CellOf(t.rows[i], lonc), ()))
  {
    var (latc, lonc) := CoordColumns(t).value;
    var pts := Map(t.rows, (row: map<string, Raw>) => Point(CellOf(row, latc), CellOf(row, lonc), ()));
    FilterValidMembership(pts, q);
  }

  /** A loaded hydrant is exactly an in-range row of the picked columns,
      coerced, carrying the code of its code cell, or "0" without a code column. */
  lemma LoadHydrantsExact(t: Table, q: Point<string>)
    requires CoordColumns(t).Some?
    ensures var (latc, lonc) := CoordColumns(t).value;
      var code := FirstPresent(CodeCandidates, t.columns);
      q in LoadHydrants(t) <==>
        exists i :: 0 <= i < |t.rows|
          && var p := Point(CellOf(t.rows[i], latc), CellOf(t.rows[i], lonc),
                            if code.Some? then HydrantCode(CellOf(t.rows[i], code.value)) else "0");
             Valid(p) && q == Coerce(p)
  {
    var (latc, lonc) := CoordColumns(t).value;
    var code := FirstPresent(CodeCandidates, t.columns);
    var pts := Map(t.rows, (row: map<string, Raw>) =>
      Point(CellOf(row, latc), CellOf(row, lonc), if code.Some? then HydrantCode(CellOf(row, code.value)) else "0"));
    FilterValidMembership(pts, q);
  }
}
