/**
 * The comparison-only part of src/lib/geometry/point_inside.ts: the bounding
 * box of a loop, the box test and the crossing direction of an edge.
 */
module PointInside {
  datatype Point = Point(lat: real, lon: real)

  /** The box `getBounds` builds: `{minLat, maxLat, minLon, maxLon}`. */
  datatype BoundingBox = BoundingBox(minLat: real, maxLat: real, minLon: real, maxLon: real)

  /** `CrossingDirection`: DOWNWARD = 1, UPWARD = -1, NOT_CROSSING = 0. */
  datatype Crossing = Downward | Upward | NotCrossing

  /** `crossingDirection(p0, p1, point)`: how the edge from `p0` to `p1` crosses the parallel through `point`. */
  function CrossingDirection(p0: Point, p1: Point, point: Point): (r: Crossing)
    ensures r == Upward <==> p0.lat <= point.lat < p1.lat
    ensures r == Downward <==> p1.lat <= point.lat < p0.lat
    ensures r == NotCrossing <==> !(p0.lat <= point.lat < p1.lat) && !(p1.lat <= point.lat < p0.lat)
    ensures p0.lat == p1.lat ==> r == NotCrossing
  {
    if point.lat >= p0.lat && point.lat < p1.lat then Upward
    else if point.lat >= p1.lat && point.lat < p0.lat then Downward
    else NotCrossing
  }

  predicate PointInsideBounds(bb: BoundingBox, point: Point) {
    bb.minLat <= point.lat <= bb.maxLat && bb.minLon <= point.lon <= bb.maxLon
  }

  /** `bb` contains every point of `loop` and each of its sides passes through a point of `loop`. */
  predicate IsBoundingBox(loop: seq<Point>, bb: BoundingBox) {
    (forall i :: 0 <= i < |loop| ==> PointInsideBounds(bb, loop[i]))
    && (exists i :: 0 <= i < |loop| && loop[i].lat == bb.minLat)
    && (exists i :: 0 <= i < |loop| && loop[i].lat == bb.maxLat)
    && (exists i :: 0 <= i < |loop| && loop[i].lon == bb.minLon)
    && (exists i :: 0 <= i < |loop| && loop[i].lon == bb.maxLon)
  }

  /** `getBounds(loop)`; the loop must have a point, since the scan starts from `loop[0]`. */
  method GetBounds(loop: seq<Point>) returns (bb: BoundingBox)
    requires |loop| > 0
    ensures IsBoundingBox(loop, bb)
  {
    var minLat, minLon, maxLat, maxLon := loop[0].lat, loop[0].lon, loop[0].lat, loop[0].lon;
    ghost var iMinLat, iMaxLat, iMinLon, iMaxLon := 0, 0, 0, 0;
    for k := 0 to |loop|
      invariant forall i :: 0 <= i < k ==> minLat <= loop[i].lat <= maxLat && minLon <= loop[i].lon <= maxLon
      invariant 0 <= iMinLat < |loop| && loop[iMinLat].lat == minLat
      invariant 0 <= iMaxLat < |loop| && loop[iMaxLat].lat == maxLat
      invariant 0 <= iMinLon < |loop| && loop[iMinLon].lon == minLon
      invariant 0 <= iMaxLon < |loop| && loop[iMaxLon].lon == maxLon
    {
      var p := loop[k];
      if p.lat < minLat { minLat := p.lat; iMinLat := k; }
      if p.lat > maxLat { maxLat := p.lat; iMaxLat := k; }
      if p.lon < minLon { minLon := p.lon; iMinLon := k; }
      if p.lon > maxLon { maxLon := p.lon; iMaxLon := k; }
    }
    bb := BoundingBox(minLat, maxLat, minLon, maxLon);
  }

  /** The bounding box is the smallest box, in the sense of `pointInsideBounds`, that holds the whole loop. */
  lemma BoundingBoxIsTightest(loop: seq<Point>, bb: BoundingBox, other: BoundingBox)
    requires IsBoundingBox(loop, bb)
    requires forall i :: 0 <= i < |loop| ==> PointInsideBounds(other, loop[i])
    ensures other.minLat <= bb.minLat && bb.maxLat <= other.maxLat
    ensures other.minLon <= bb.minLon && bb.maxLon <= other.maxLon
  {
    var a :| 0 <= a < |loop| && loop[a].lat == bb.minLat;
    var b :| 0 <= b < |loop| && loop[b].lat == bb.maxLat;
    var c :| 0 <= c < |loop| && loop[c].lon == bb.minLon;
    var d :| 0 <= d < |loop| && loop[d].lon == bb.maxLon;
    assert PointInsideBounds(other, loop[a]) && PointInsideBounds(other, loop[b]);
    assert PointInsideBounds(other, loop[c]) && PointInsideBounds(other, loop[d]);
  }

  /**
   * The box as it is stored in the bounds file: a JSON object whose keys are
   * the field names `getBounds` gives it.
   */
  function StoredBox(bb: BoundingBox): (m: map<string, real>)
    ensures m.Keys == {"minLat", "maxLat", "minLon", "maxLon"}
  {
    map["minLat" := bb.minLat, "maxLat" := bb.maxLat, "minLon" := bb.minLon, "maxLon" := bb.maxLon]
  }

  /**
   * `pointInsideBounds` as written: it reads the properties `0` to `3`, and a
   * comparison with a missing property (`undefined`) is false.
   */
  function PointInsideStoredBounds(stored: map<string, real>, point: Point): bool {
    "0" in stored && "1" in stored && "2" in stored && "3" in stored
    && point.lat >= stored["0"] && point.lat <= stored["1"]
    && point.lon >= stored["2"] && point.lon <= stored["3"]
  }

  /**
   * As written, no point is inside a stored box, not even the loop's own
   * points, which the named-field test accepts.
   */
  lemma StoredBoundsContainNothing(loop: seq<Point>, bb: BoundingBox, i: nat)
    requires i < |loop| && IsBoundingBox(loop, bb)
    ensures !PointInsideStoredBounds(StoredBox(bb), loop[i])
    ensures PointInsideBounds(bb, loop[i])
  {
    assert "0" !in StoredBox(bb);
  }
}
