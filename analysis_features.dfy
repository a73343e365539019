/** The GeoJSON walks of app/modules/tab_analysis.py: the bounding box and
    view of one district (`_bbox_center_zoom_for_gu`), the border lines of
    every region (`_build_border_lines_map`), and the detection of the
    property of the neighbourhood layer that names the district
    (`_detect_dong_gu_prop`). */
module AnalysisFeatures {
  import opened Common
  import opened MapView
  import opened Analysis

  /** A GeoJSON position `[lon, lat]`. */
  datatype Coord = Coord(lon: real, lat: real)

  /** A feature's geometry: polygons with their rings, another geometry
      type (only whether it has coordinates matters), or none at all (a
      missing, null or empty geometry object). */
  datatype Geometry =
    | Polygon(rings: seq<seq<Coord>>)
    | MultiPolygon(polys: seq<seq<seq<Coord>>>)
    | OtherGeometry(hasCoords: bool)
    | NoGeometry

  /** A feature: its properties (a JSON null is None) and its geometry. */
  datatype Feature = Feature(props: map<string, Option<string>>, geom: Geometry)

  /** `props.get(key)`. */
  function Prop(f: Feature, key: string): Option<string>
  {
    if key in f.props then f.props[key] else None
  }

  // ---------------------------------------------------------------------
  // _bbox_center_zoom_for_gu

  /** The accumulators west, south, east, north. */
  datatype Box = Box(west: real, south: real, east: real, north: real)

  /** Their initial values, `1e9, 1e9, -1e9, -1e9`. */
  const Unset: Box := Box(1000000000.0, 1000000000.0, -1000000000.0, -1000000000.0)

  /** `upd(lon, lat)`. */
  function Widen(b: Box, c: Coord): Box
  {
    Box(Min(b.west, c.lon), Min(b.south, c.lat), Max(b.east, c.lon), Max(b.north, c.lat))
  }

  /** The accumulators after `upd` on every position of `cs`, in order: they
      only grow outward and end up enclosing every position. */
  function ExtentFrom(b: Box, cs: seq<Coord>): (e: Box)
    ensures e.west <= b.west && e.south <= b.south && e.east >= b.east && e.north >= b.north
    ensures forall c :: c in cs ==> e.west <= c.lon <= e.east && e.south <= c.lat <= e.north
    decreases |cs|
  {
    if cs == [] then b
    else
      var init := cs[..|cs| - 1];
      assert forall c :: c in cs ==> c in init || c == cs[|cs| - 1];
      Widen(ExtentFrom(b, init), cs[|cs| - 1])
  }

  lemma ExtentSnoc(b: Box, cs: seq<Coord>, c: Coord)
    ensures ExtentFrom(b, cs + [c]) == Widen(ExtentFrom(b, cs), c)
  {
    assert (cs + [c])[..|cs|] == cs;
  }

  /** Each side of the box is reached by some position, when there is one
      and every position lies within the initial values. */
  lemma {:induction false} ExtentAttained(cs: seq<Coord>)
    requires cs != []
    requires forall c :: c in cs ==>
      -1000000000.0 <= c.lon <= 1000000000.0 && -1000000000.0 <= c.lat <= 1000000000.0
    ensures var e := ExtentFrom(Unset, cs);
      (exists c :: c in cs && c.lon == e.west) && (exists c :: c in cs && c.lon == e.east)
      && (exists c :: c in cs && c.lat == e.south) && (exists c :: c in cs && c.lat == e.north)
    decreases |cs|
  {
    var init, last := cs[..|cs| - 1], cs[|cs| - 1];
    assert last in cs;
    if init != [] {
      assert forall c :: c in init ==> c in cs;
      ExtentAttained(init);
    }
  }

  /** The positions of a polygon's rings, ring after ring. */
  function RingsCoords(rings: seq<seq<Coord>>): seq<Coord>
  {
    if rings == [] then [] else RingsCoords(rings[..|rings| - 1]) + rings[|rings| - 1]
  }

  function PolysCoords(polys: seq<seq<seq<Coord>>>): seq<Coord>
  {
    if polys == [] then [] else PolysCoords(polys[..|polys| - 1]) + RingsCoords(polys[|polys| - 1])
  }

  /** Every position the nested loops visit; none for another geometry type. */
  function GeomCoords(g: Geometry): seq<Coord>
  {
    match g
    case Polygon(rings) => RingsCoords(rings)
    case MultiPolygon(polys) => PolysCoords(polys)
    case OtherGeometry(_) => []
    case NoGeometry => []
  }

  /** `coords and gtype`: a geometry with a type and a non-empty coordinate list. */
  predicate HasCoords(g: Geometry)
  {
    match g
    case Polygon(rings) => rings != []
    case MultiPolygon(polys) => polys != []
    case OtherGeometry(h) => h
    case NoGeometry => false
  }

  /** The feature the loop stops at: `_key` equal to `key`, with coordinates. */
  predicate IsGuFeature(f: Feature, key: string)
  {
    Prop(f, "_key") == Some(key) && HasCoords(f.geom)
  }

  function FirstGuFrom(fs: seq<Feature>, key: string, from: nat): (r: Option<nat>)
    ensures r.Some? ==> from <= r.value < |fs| && IsGuFeature(fs[r.value], key)
    ensures forall j :: from <= j < |fs| && (r.None? || j < r.value) ==> !IsGuFeature(fs[j], key)
    decreases |fs| - from
  {
    if from >= |fs| then None
    else if IsGuFeature(fs[from], key) then Some(from)
    else FirstGuFrom(fs, key, from + 1)
  }

  /** The accumulators after the loop: the extent of the first matching
      feature's positions, or the initial values when none matches. */
  function GuBox(fs: seq<Feature>, key: string): Box
  {
    match FirstGuFrom(fs, key, 0)
    case None => Unset
    case Some(i) => ExtentFrom(Unset, GeomCoords(fs[i].geom))
  }

  /** The view when the box is empty or flat. */
  const DefaultCenter: Coord := Coord(128.6014, 35.8714)
  const DefaultZoom: real := 10.6

  /** The larger side, each side at least 1e-6. */
  function GuSpan(b: Box): real
  {
    Max(Max(0.000001, b.east - b.west), Max(0.000001, b.north - b.south))
  }

  lemma RingsCoordsSnoc(before: seq<Coord>, rings: seq<seq<Coord>>, r: nat)
    requires r < |rings|
    ensures before + RingsCoords(rings[..r + 1]) == before + RingsCoords(rings[..r]) + rings[r]
  {
    assert rings[..r + 1][..r] == rings[..r];
  }

  lemma PolysCoordsSnoc(polys: seq<seq<seq<Coord>>>, p: nat)
    requires p < |polys|
    ensures PolysCoords(polys[..p + 1]) == PolysCoords(polys[..p]) + RingsCoords(polys[p])
  {
    assert polys[..p + 1][..p] == polys[..p];
  }

  /** The `upd` calls over every position of a polygon's rings, continuing
      from the accumulators reached after the positions `before`. */
  method WidenRings(west0: real, south0: real, east0: real, north0: real, rings: seq<seq<Coord>>,
                    ghost before: seq<Coord>)
    returns (west: real, south: real, east: real, north: real)
    requires Box(west0, south0, east0, north0) == ExtentFrom(Unset, before)
    ensures Box(west, south, east, north) == ExtentFrom(Unset, before + RingsCoords(rings))
  {
    west, south, east, north := west0, south0, east0, north0;
    assert before + RingsCoords(rings[..0]) == before;
    for r := 0 to |rings|
      invariant Box(west, south, east, north) == ExtentFrom(Unset, before + RingsCoords(rings[..r]))
    {
      var ring := rings[r];
      ghost var done := before + RingsCoords(rings[..r]);
      assert done + ring[..0] == done;
      for k := 0 to |ring|
        invariant Box(west, south, east, north) == ExtentFrom(Unset, done + ring[..k])
      {
        var c := ring[k];
        ExtentSnoc(Unset, done + ring[..k], c);
        PrefixSnoc(done, ring, k);
        west := Min(west, c.lon); south := Min(south, c.lat);
        east := Max(east, c.lon); north := Max(north, c.lat);
      }
      assert ring[..|ring|] == ring;
      RingsCoordsSnoc(before, rings, r);
    }
    assert rings[..|rings|] == rings;
  }

  /** The `upd` calls over every position of a multipolygon, from the
      initial accumulators. */
  method WidenPolys(west0: real, south0: real, east0: real, north0: real, polys: seq<seq<seq<Coord>>>)
    returns (west: real, south: real, east: real, north: real)
    requires Box(west0, south0, east0, north0) == Unset
    ensures Box(west, south, east, north) == ExtentFrom(Unset, PolysCoords(polys))
  {
    west, south, east, north := west0, south0, east0, north0;
    for p := 0 to |polys|
      invariant Box(west, south, east, north) == ExtentFrom(Unset, PolysCoords(polys[..p]))
    {
      PolysCoordsSnoc(polys, p);
      west, south, east, north := WidenRings(west, south, east, north, polys[p], PolysCoords(polys[..p]));
    }
    assert polys[..|polys|] == polys;
  }

  /** `_bbox_center_zoom_for_gu`: the box of the first feature whose `_key`
      matches, and either the default view (no box) or its midpoint, the
      tier of its larger side and the box. */
  method BboxCenterZoomForGu(fs: seq<Feature>, key: string) returns (center: Coord, zoom: real, bbox: Option<Box>)
    ensures var b := GuBox(fs, key);
      if b.west < b.east && b.south < b.north then
        bbox == Some(b) && center == Coord((b.west + b.east) / 2.0, (b.south + b.north) / 2.0)
        && zoom == ZoomTier(GuSpan(b))
      else
        bbox == None && center == DefaultCenter && zoom == DefaultZoom
  {
    var west, south, east, north := 1000000000.0, 1000000000.0, -1000000000.0, -1000000000.0;
    var i := 0;
    while i < |fs|
      invariant 0 <= i <= |fs|
      invariant FirstGuFrom(fs, key, 0) == FirstGuFrom(fs, key, i)
      invariant Box(west, south, east, north) == Unset
    {
      var f := fs[i];
      if Prop(f, "_key") == Some(key) && HasCoords(f.geom) {
        match f.geom {
          case Polygon(rings) =>
            assert [] + RingsCoords(rings) == RingsCoords(rings);
            west, south, east, north := WidenRings(west, south, east, north, rings, []);
          case MultiPolygon(polys) =>
            west, south, east, north := WidenPolys(west, south, east, north, polys);
          case OtherGeometry(_) =>
          case NoGeometry =>
        }
        assert FirstGuFrom(fs, key, 0) == Some(i);
        assert Box(west, south, east, north) == GuBox(fs, key);
        break;
      }
      i := i + 1;
    }
    assert Box(west, south, east, north) == GuBox(fs, key);
    if !(west < east && south < north) {
      return DefaultCenter, DefaultZoom, None;
    }
    center := Coord((west + east) / 2.0, (south + north) / 2.0);
    var lonSpan := Max(0.000001, east - west);
    var latSpan := Max(0.000001, north - south);
    var span := Max(lonSpan, latSpan);
    zoom := ZoomTier(span);
    bbox := Some(Box(west, south, east, north));
  }

  /** The box answered is the exact extent of the matched feature: it
      encloses every position and each side is reached; without a matching
      feature there is no box. */
  lemma GuBoxMeaning(fs: seq<Feature>, key: string)
    ensures FirstGuFrom(fs, key, 0).None? ==> !(GuBox(fs, key).west < GuBox(fs, key).east)
    ensures FirstGuFrom(fs, key, 0).Some? ==>
      var cs := GeomCoords(fs[FirstGuFrom(fs, key, 0).value].geom);
      forall c :: c in cs ==>
        GuBox(fs, key).west <= c.lon <= GuBox(fs, key).east && GuBox(fs, key).south <= c.lat <= GuBox(fs, key).north
  {
  }

  // ---------------------------------------------------------------------
  // _build_border_lines_map

  /** The two parallel lists of a region's border, None between rings. */
  datatype Lines = Lines(lats: seq<Option<real>>, lons: seq<Option<real>>)

  function Present(c: Coord): Option<Coord>
  {
    Some(c)
  }

  /** Each ring's positions followed by one separator. */
  function RingStream(rings: seq<seq<Coord>>): seq<Option<Coord>>
  {
    if rings == [] then []
    else RingStream(rings[..|rings| - 1]) + Map(rings[|rings| - 1], Present) + [None]
  }

  function PolysStream(polys: seq<seq<seq<Coord>>>): seq<Option<Coord>>
  {
    if polys == [] then [] else PolysStream(polys[..|polys| - 1]) + RingStream(polys[|polys| - 1])
  }

  function GeomStream(g: Geometry): seq<Option<Coord>>
  {
    match g
    case Polygon(rings) => RingStream(rings)
    case MultiPolygon(polys) => PolysStream(polys)
    case OtherGeometry(_) => []
    case NoGeometry => []
  }

  function LatOf(o: Option<Coord>): Option<real>
  {
    if o.None? then None else Some(o.value.lat)
  }

  function LonOf(o: Option<Coord>): Option<real>
  {
    if o.None? then None else Some(o.value.lon)
  }

  function LinesOf(stream: seq<Option<Coord>>): Lines
  {
    Lines(Map(stream, LatOf), Map(stream, LonOf))
  }

  /** The key a feature is stored under: a non-empty key property, a
      geometry, and at least one list entry; otherwise it is skipped. */
  function BorderKey(f: Feature, keyName: string): (k: Option<string>)
    ensures k.Some? ==> k.value != "" && GeomStream(f.geom) != []
  {
    var k := Prop(f, keyName);
    if k.Some? && k.value != "" && !f.geom.NoGeometry? && GeomStream(f.geom) != [] then k else None
  }

  /** The map after the loop: features in order, a later one under the same
      key replacing an earlier. */
  function BorderMap(fs: seq<Feature>, keyName: string): map<string, Lines>
  {
    if fs == [] then map[]
    else
      var m := BorderMap(fs[..|fs| - 1], keyName);
      var f := fs[|fs| - 1];
      match BorderKey(f, keyName)
      case None => m
      case Some(k) => m[k := LinesOf(GeomStream(f.geom))]
  }

  /** Appending one entry to the stream appends its latitude and longitude. */
  lemma LinesSnoc(x: seq<Option<Coord>>, o: Option<Coord>)
    ensures LinesOf(x + [o]) == Lines(LinesOf(x).lats + [LatOf(o)], LinesOf(x).lons + [LonOf(o)])
  {
    MapSnoc(x, o, LatOf);
    MapSnoc(x, o, LonOf);
  }

  lemma RingPrefixSnoc(before: seq<Option<Coord>>, ring: seq<Coord>, k: nat)
    requires k < |ring|
    ensures before + Map(ring[..k + 1], Present) == before + Map(ring[..k], Present) + [Present(ring[k])]
  {
    assert ring[..k + 1] == ring[..k] + [ring[k]];
    MapSnoc(ring[..k], ring[k], Present);
  }

  lemma RingStreamSnoc(s0: seq<Option<Coord>>, rings: seq<seq<Coord>>, r: nat)
    requires r < |rings|
    ensures s0 + RingStream(rings[..r + 1]) == s0 + RingStream(rings[..r]) + Map(rings[r], Present) + [None]
  {
    assert rings[..r + 1][..r] == rings[..r];
  }

  /** The lists of one ring set, appended to the lists built so far. */
  method AppendRings(rings: seq<seq<Coord>>, lats0: seq<Option<real>>, lons0: seq<Option<real>>,
                     ghost s0: seq<Option<Coord>>)
    returns (lats: seq<Option<real>>, lons: seq<Option<real>>)
    requires Lines(lats0, lons0) == LinesOf(s0)
    ensures Lines(lats, lons) == LinesOf(s0 + RingStream(rings))
  {
    lats, lons := lats0, lons0;
    for r := 0 to |rings|
      invariant Lines(lats, lons) == LinesOf(s0 + RingStream(rings[..r]))
    {
      var ring := rings[r];
      ghost var before := s0 + RingStream(rings[..r]);
      assert before + Map(ring[..0], Present) == before;
      for k := 0 to |ring|
        invariant Lines(lats, lons) == LinesOf(before + Map(ring[..k], Present))
      {
        var c := ring[k];
        RingPrefixSnoc(before, ring, k);
        LinesSnoc(before + Map(ring[..k], Present), Present(c));
        lats := lats + [Some(c.lat)];
        lons := lons + [Some(c.lon)];
      }
      assert ring[..|ring|] == ring;
      LinesSnoc(before + Map(ring, Present), None);
      RingStreamSnoc(s0, rings, r);
      lats := lats + [None];
      lons := lons + [None];
    }
    assert rings[..|rings|] == rings;
  }

  /** `_build_border_lines_map`. */
  method BuildBorderLinesMap(fs: seq<Feature>, keyName: string) returns (out: map<string, Lines>)
    ensures out == BorderMap(fs, keyName)
  {
    out := map[];
    for i := 0 to |fs|
      invariant out == BorderMap(fs[..i], keyName)
    {
      var f := fs[i];
      assert fs[..i + 1][..i] == fs[..i];
      var k := Prop(f, keyName);
      if k.Some? && k.value != "" && !f.geom.NoGeometry? {
        var lats: seq<Option<real>> := [];
        var lons: seq<Option<real>> := [];
        match f.geom {
          case Polygon(rings) =>
            lats, lons := AppendRings(rings, lats, lons, []);
            assert [] + RingStream(rings) == GeomStream(f.geom);
          case MultiPolygon(polys) =>
            for p := 0 to |polys|
              invariant Lines(lats, lons) == LinesOf(PolysStream(polys[..p]))
            {
              assert polys[..p + 1][..p] == polys[..p];
              lats, lons := AppendRings(polys[p], lats, lons, PolysStream(polys[..p]));
            }
            assert polys[..|polys|] == polys;
          case OtherGeometry(_) =>
            assert LinesOf(GeomStream(f.geom)) == Lines([], []);
          case NoGeometry =>
        }
        if |lats| > 0 && |lons| > 0 {
          out := out[k.value := Lines(lats, lons)];
        }
      }
    }
    assert fs[..|fs|] == fs;
  }

  /** The number of separators in a list. */
  function Separators(s: seq<Option<Coord>>): nat
  {
    if s == [] then 0 else (if s[0].None? then 1 else 0) + Separators(s[1..])
  }

  lemma {:induction false} SeparatorsAppend(a: seq<Option<Coord>>, b: seq<Option<Coord>>)
    ensures Separators(a + b) == Separators(a) + Separators(b)
  {
    if a == [] {
      assert a + b == b;
    } else {
      assert (a + b)[1..] == a[1..] + b;
      SeparatorsAppend(a[1..], b);
    }
  }

  lemma {:induction false} NoSeparatorsInRing(ring: seq<Coord>)
    ensures Separators(Map(ring, Present)) == 0
  {
    if ring != [] {
      assert Map(ring, Present)[1..] == Map(ring[1..], Present);
      NoSeparatorsInRing(ring[1..]);
    }
  }

  /** One separator per ring. */
  lemma {:induction false} RingStreamSeparators(rings: seq<seq<Coord>>)
    ensures Separators(RingStream(rings)) == |rings|
    decreases |rings|
  {
    if rings != [] {
      var init, last := rings[..|rings| - 1], rings[|rings| - 1];
      RingStreamSeparators(init);
      NoSeparatorsInRing(last);
      SeparatorsAppend(RingStream(init), Map(last, Present));
      SeparatorsAppend(RingStream(init) + Map(last, Present), [None]);
      assert Separators([None]) == 1 + Separators([]);
    }
  }

  /** The number of rings of a geometry. */
  function RingCount(g: Geometry): nat
  {
    match g
    case Polygon(rings) => |rings|
    case MultiPolygon(polys) => PolysRingCount(polys)
    case OtherGeometry(_) => 0
    case NoGeometry => 0
  }

  function PolysRingCount(polys: seq<seq<seq<Coord>>>): nat
  {
    if polys == [] then 0 else PolysRingCount(polys[..|polys| - 1]) + |polys[|polys| - 1]|
  }

  lemma {:induction false} PolysStreamSeparators(polys: seq<seq<seq<Coord>>>)
    ensures Separators(PolysStream(polys)) == PolysRingCount(polys)
    decreases |polys|
  {
    if polys != [] {
      PolysStreamSeparators(polys[..|polys| - 1]);
      RingStreamSeparators(polys[|polys| - 1]);
      SeparatorsAppend(PolysStream(polys[..|polys| - 1]), RingStream(polys[|polys| - 1]));
    }
  }

  /** A key is stored exactly when some kept feature carries it ... */
  lemma {:induction false} BorderMapKeys(fs: seq<Feature>, keyName: string, k: string)
    ensures k in BorderMap(fs, keyName) <==> exists i :: 0 <= i < |fs| && BorderKey(fs[i], keyName) == Some(k)
    decreases |fs|
  {
    if fs != [] {
      var init := fs[..|fs| - 1];
      BorderMapKeys(init, keyName, k);
      assert forall i :: 0 <= i < |init| ==> init[i] == fs[i];
      if BorderKey(fs[|fs| - 1], keyName) != Some(k) {
        assert k in BorderMap(fs, keyName) <==> k in BorderMap(init, keyName);
      }
    }
  }

  /** Feature `i` carries key `k` and no later feature does. */
  predicate LastCarrier(fs: seq<Feature>, keyName: string, k: string, i: int)
  {
    0 <= i < |fs| && BorderKey(fs[i], keyName) == Some(k)
    && forall j :: i < j < |fs| ==> BorderKey(fs[j], keyName) != Some(k)
  }

  /** A last feature without the key leaves the last carrier as it was. */
  lemma LastCarrierSnoc(fs: seq<Feature>, keyName: string, k: string, i: int)
    requires fs != [] && LastCarrier(fs[..|fs| - 1], keyName, k, i)
    requires BorderKey(fs[|fs| - 1], keyName) != Some(k)
    ensures LastCarrier(fs, keyName, k, i)
  {
    var init := fs[..|fs| - 1];
    assert fs[i] == init[i];
    forall j | i < j < |fs|
      ensures BorderKey(fs[j], keyName) != Some(k)
    {
      if j < |init| {
        assert fs[j] == init[j];
      } else {
        assert j == |fs| - 1;
      }
    }
  }

  /** ... and its entry is that of the last kept feature carrying it. */
  lemma {:induction false} BorderMapLast(fs: seq<Feature>, keyName: string, k: string)
    requires k in BorderMap(fs, keyName)
    ensures exists i :: LastCarrier(fs, keyName, k, i) && BorderMap(fs, keyName)[k] == LinesOf(GeomStream(fs[i].geom))
    decreases |fs|
  {
    var init, f := fs[..|fs| - 1], fs[|fs| - 1];
    if BorderKey(f, keyName) == Some(k) {
      assert LastCarrier(fs, keyName, k, |fs| - 1);
      assert BorderMap(fs, keyName)[k] == LinesOf(GeomStream(f.geom));
    } else {
      assert k in BorderMap(init, keyName) && BorderMap(fs, keyName)[k] == BorderMap(init, keyName)[k] by {
        match BorderKey(f, keyName) {
          case None =>
          case Some(k2) => assert k2 != k;
        }
      }
      BorderMapLast(init, keyName, k);
      var i :| LastCarrier(init, keyName, k, i) && BorderMap(init, keyName)[k] == LinesOf(GeomStream(init[i].geom));
      LastCarrierSnoc(fs, keyName, k, i);
      assert LastCarrier(fs, keyName, k, i);
    }
  }

  /** Each stored entry has two lists of equal length with their separators
      in the same places, and one separator per ring. */
  lemma LinesShape(g: Geometry)
    ensures var l := LinesOf(GeomStream(g));
      |l.lats| == |l.lons| && (forall i :: 0 <= i < |l.lats| ==> (l.lats[i].None? <==> l.lons[i].None?))
    ensures Separators(GeomStream(g)) == RingCount(g)
  {
    match g {
      case Polygon(rings) => RingStreamSeparators(rings);
      case MultiPolygon(polys) => PolysStreamSeparators(polys);
      case OtherGeometry(_) =>
      case NoGeometry =>
    }
  }

  // ---------------------------------------------------------------------
  // _detect_dong_gu_prop

  /** The fixed candidate names of the district property. */
  const GuCandidates: seq<string> := [
    "SIGUNGU_NM", "SGG_NM", "SIG_KOR_NM", "SIG_KOR", "SIGUNGU", "GU_NM", "GU",
    "sigungu_nm", "sgg_nm", "sig_kor_nm", "sig_kor", "sigungu", "gu_nm", "gu"]

  /** The property keys of the first `n` features. */
  function KeysOf(fs: seq<Feature>, n: nat): set<string>
    requires n <= |fs|
  {
    if n == 0 then {} else KeysOf(fs, n - 1) + fs[n - 1].props.Keys
  }

  /** `gj_dong["features"][:20]` has this many features. */
  function SampleSize(fs: seq<Feature>): nat
  {
    if |fs| < 20 then |fs| else 20
  }

  /** The non-empty normalised values of `key` over the first `n` features. */
  function ValuesOf(fs: seq<Feature>, key: string, n: nat): set<string>
    requires n <= |fs|
  {
    if n == 0 then {}
    else
      var nv := NormName(Prop(fs[n - 1], key));
      ValuesOf(fs, key, n - 1) + (if nv.Some? && nv.value != "" then {nv.value} else {})
  }

  /** `len(vals & df_gu_keys_norm)` for one candidate. */
  function Overlap(fs: seq<Feature>, key: string, guKeys: set<string>): nat
  {
    |ValuesOf(fs, key, |fs|) * guKeys|
  }

  lemma {:induction false} KeysOfMeaning(fs: seq<Feature>, n: nat, k: string)
    requires n <= |fs|
    ensures k in KeysOf(fs, n) <==> exists i :: 0 <= i < n && k in fs[i].props
  {
    if n > 0 {
      KeysOfMeaning(fs, n - 1, k);
    }
  }

  /** A value counts exactly when some feature's property normalises to it. */
  lemma {:induction false} ValuesOfMeaning(fs: seq<Feature>, key: string, n: nat, v: string)
    requires n <= |fs|
    ensures v in ValuesOf(fs, key, n) <==>
      v != "" && exists i :: 0 <= i < n && NormName(Prop(fs[i], key)) == Some(v)
  {
    if n > 0 {
      ValuesOfMeaning(fs, key, n - 1, v);
    }
  }

  /** `prop_keys`: the property keys of the first 20 features. */
  method SampleKeys(fs: seq<Feature>) returns (propKeys: set<string>)
    ensures propKeys == KeysOf(fs, SampleSize(fs))
  {
    propKeys := {};
    for i := 0 to SampleSize(fs)
      invariant propKeys == KeysOf(fs, i)
    {
      propKeys := propKeys + fs[i].props.Keys;
    }
  }

  /** The candidate list: the fixed names, then the other sampled
      property keys, each once, in the set's iteration order (chosen
      here arbitrarily). */
  method CandidateKeys(fixed: seq<string>, propKeys: set<string>) returns (cand: seq<string>)
    ensures |cand| >= |fixed| && cand[..|fixed|] == fixed
    ensures forall k :: k in cand[|fixed|..] <==> k in propKeys && k !in fixed
    ensures forall i, j :: |fixed| <= i < j < |cand| ==> cand[i] != cand[j]
  {
    var extra: seq<string> := [];
    var rest := propKeys;
    ghost var seen: set<string> := {};
    while rest != {}
      invariant forall k :: k in extra <==> k in seen && k !in fixed
      invariant forall i, j :: 0 <= i < j < |extra| ==> extra[i] != extra[j]
      invariant seen !! rest && seen + rest == propKeys
      decreases |rest|
    {
      var k :| k in rest;
      if k !in fixed {
        extra := extra + [k];
      }
      seen := seen + {k};
      rest := rest - {k};
    }
    cand := fixed + extra;
    assert cand[..|fixed|] == fixed && cand[|fixed|..] == extra;
  }

  /** `vals` for one candidate. */
  method NormValues(fs: seq<Feature>, key: string) returns (vals: set<string>)
    ensures vals == ValuesOf(fs, key, |fs|)
  {
    vals := {};
    for j := 0 to |fs|
      invariant vals == ValuesOf(fs, key, j)
    {
      var nv := NormName(Prop(fs[j], key));
      assert ValuesOf(fs, key, j + 1) == vals + (if nv.Some? && nv.value != "" then {nv.value} else {});
      if nv.Some? && nv.value != "" {
        vals := vals + {nv.value};
      }
    }
  }

  /** After scanning `ov[..i]`: `bestIdx` is the first index of the largest
      value seen, `bestOverlap` that value (-1 before any is seen). */
  predicate BestSoFar(ov: seq<int>, i: nat, bestIdx: nat, bestOverlap: int)
  {
    i <= |ov| && (bestOverlap == -1 <==> i == 0) && bestIdx <= i
    && (i > 0 ==> bestIdx < i && bestOverlap == ov[bestIdx])
    && (forall j :: 0 <= j < i ==> ov[j] <= bestOverlap)
    && (forall j :: 0 <= j < bestIdx ==> ov[j] < bestOverlap)
  }

  /** One step of the scan keeps it. */
  lemma BestSoFarStep(ov: seq<int>, i: nat, bestIdx: nat, bestOverlap: int)
    requires BestSoFar(ov, i, bestIdx, bestOverlap) && i < |ov| && ov[i] >= 0
    ensures ov[i] > bestOverlap ==> BestSoFar(ov, i + 1, i, ov[i])
    ensures ov[i] <= bestOverlap ==> BestSoFar(ov, i + 1, bestIdx, bestOverlap)
  {
  }

  /** The scan over the candidates: the first one of greatest overlap (a
      later one must do strictly better to replace it), or None when no
      candidate overlaps. */
  method BestCandidate(fs: seq<Feature>, cand: seq<string>, guKeys: set<string>) returns (best: Option<string>)
    ensures best.None? <==> forall j :: 0 <= j < |cand| ==> Overlap(fs, cand[j], guKeys) == 0
    ensures best.Some? ==>
      exists i :: 0 <= i < |cand| && cand[i] == best.value
        && (forall j :: 0 <= j < |cand| ==> Overlap(fs, cand[j], guKeys) <= Overlap(fs, cand[i], guKeys))
        && (forall j :: 0 <= j < i ==> Overlap(fs, cand[j], guKeys) < Overlap(fs, cand[i], guKeys))
  {
    ghost var ovs := seq(|cand|, j requires 0 <= j < |cand| => Overlap(fs, cand[j], guKeys) as int);
    var bestIdx := 0;
    var bestOverlap := -1;
    for i := 0 to |cand|
      invariant BestSoFar(ovs, i, bestIdx, bestOverlap)
    {
      var vals := NormValues(fs, cand[i]);
      var overlap := |vals * guKeys|;
      assert overlap == ovs[i];
      BestSoFarStep(ovs, i, bestIdx, bestOverlap);
      if overlap > bestOverlap {
        bestIdx, bestOverlap := i, overlap;
      }
    }
    assert forall j :: 0 <= j < |cand| ==> ovs[j] == Overlap(fs, cand[j], guKeys);
    best := if bestOverlap > 0 then Some(cand[bestIdx]) else None;
    if bestOverlap > 0 {
      assert cand[bestIdx] == best.value && ovs[bestIdx] == bestOverlap;
    }
  }

  /** `_detect_dong_gu_prop`: the candidates are the fixed names followed by
      the other property keys of the first 20 features, and the answer is
      the first candidate of greatest overlap with the district keys, or
      None when no candidate overlaps. */
  method DetectDongGuProp(fs: seq<Feature>, guKeys: set<string>) returns (best: Option<string>, cand: seq<string>)
    ensures |cand| >= |GuCandidates| && cand[..|GuCandidates|] == GuCandidates
    ensures forall k :: k in cand[|GuCandidates|..] <==> k in KeysOf(fs, SampleSize(fs)) && k !in GuCandidates
    ensures forall i, j :: |GuCandidates| <= i < j < |cand| ==> cand[i] != cand[j]
    ensures best.None? <==> forall j :: 0 <= j < |cand| ==> Overlap(fs, cand[j], guKeys) == 0
    ensures best.Some? ==>
      exists i :: 0 <= i < |cand| && cand[i] == best.value
        && (forall j :: 0 <= j < |cand| ==> Overlap(fs, cand[j], guKeys) <= Overlap(fs, cand[i], guKeys))
        && (forall j :: 0 <= j < i ==> Overlap(fs, cand[j], guKeys) < Overlap(fs, cand[i], guKeys))
  {
    var propKeys := SampleKeys(fs);
    cand := CandidateKeys(GuCandidates, propKeys);
    best := BestCandidate(fs, cand, guKeys);
  }
}
