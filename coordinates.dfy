/** Points and the latitude/longitude validity filter shared by
    app/modules/tab_notes2.py (`_valid_latlon`) and the point loaders of
    app/modules/tab_analysis.py: coerce both coordinate columns to numbers,
    drop the rows where either is missing, keep the rows inside the box
    lat 30..45, lon 120..135 (bounds included), in their original order. */
module Coordinates {
  import opened Common
  import opened Text
  import opened Parsers

  /** `pd.to_numeric(v, errors="coerce")` on one cell: numbers stay, decimal
      text is parsed, anything else becomes NaN. */
  function ToNumeric(v: Raw): (r: Float)
    ensures v.Int? ==> r == Num(v.i as real)
    ensures v.Float? ==> r == Num(v.x)
    ensures v.Missing? || v.FloatNaN? ==> r.NaN?
  {
    match v
    case Missing => NaN
    case FloatNaN => NaN
    case Int(i) => Num(i as real)
    case Float(x) => Num(x)
    case Str(t) =>
      var s := Strip(t);
      if IsDecimalLiteral(s) then Num(DecimalValue(s)) else NaN
  }

  /** The cell a coerced number is written back as. */
  function FromFloat(x: Float): (v: Raw)
    ensures ToNumeric(v) == x
  {
    if x.NaN? then FloatNaN else Float(x.x)
  }

  const LatMin: real := 30.0
  const LatMax: real := 45.0
  const LonMin: real := 120.0
  const LonMax: real := 135.0

  /** `dropna` on both coordinates, then `between(30, 45)` and `between(120, 135)`. */
  predicate InRange(lat: Float, lon: Float)
  {
    lat.Num? && lon.Num? && LatMin <= lat.x <= LatMax && LonMin <= lon.x <= LonMax
  }

  /** One row of a point table: its two coordinate cells and the other columns. */
  datatype Point<T> = Point(lat: Raw, lon: Raw, data: T)

  predicate Valid<T>(p: Point<T>)
  {
    InRange(ToNumeric(p.lat), ToNumeric(p.lon))
  }

  /** The row after `pd.to_numeric` on both coordinate columns. */
  function Coerce<T>(p: Point<T>): (q: Point<T>)
    ensures q.data == p.data && (Valid(q) <==> Valid(p))
    ensures ToNumeric(q.lat) == ToNumeric(p.lat) && ToNumeric(q.lon) == ToNumeric(p.lon)
  {
    Point(FromFloat(ToNumeric(p.lat)), FromFloat(ToNumeric(p.lon)), p.data)
  }

  /** Conversion, `dropna` and the two `between` masks, in that order. */
  function FilterValid<T>(ps: seq<Point<T>>): (r: seq<Point<T>>)
    ensures |r| <= |ps|
    ensures forall q :: q in r ==> Valid(q)
  {
    Filter(Map(ps, Coerce), Valid)
  }

  /** A row comes out exactly when a valid input row coerces to it. */
  lemma FilterValidMembership<T>(ps: seq<Point<T>>, q: Point<T>)
    ensures q in FilterValid(ps) <==> exists i :: 0 <= i < |ps| && Valid(ps[i]) && q == Coerce(ps[i])
  {
    FilterMembership(Map(ps, Coerce), Valid, q);
  }

  /** Row order is kept: filtering a concatenation filters each part. */
  lemma FilterValidAppend<T>(a: seq<Point<T>>, b: seq<Point<T>>)
    ensures FilterValid(a + b) == FilterValid(a) + FilterValid(b)
  {
    MapAppend(a, b, Coerce);
    FilterAppend(Map(a, Coerce), Map(b, Coerce), Valid);
  }

  /** The filter is idempotent. */
  lemma FilterValidIdempotent<T>(ps: seq<Point<T>>)
    ensures FilterValid(FilterValid(ps)) == FilterValid(ps)
  {
    var r := FilterValid(ps);
    assert Map(r, Coerce) == r by {
      forall i | 0 <= i < |r| ensures Coerce(r[i]) == r[i] {
        assert r[i] in r;
        FilterMembership(Map(ps, Coerce), Valid, r[i]);
      }
    }
    FilterAll(r, Valid);
  }
}
