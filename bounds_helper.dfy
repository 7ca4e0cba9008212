/**
 * `BoundsHelper` of src/lib/boundsHelper.ts: the country loops read from the
 * bounds file and the question whether a point lies in one of them. The convex
 * test `insideConvex` works on floating point and is a parameter here.
 */
module BoundsHelpers {
  import opened PointInside

  /** `[lat, lon]`, the compact point of the bounds file. */
  type SmallPoint = (real, real)

  /** One loop of a country: its bounding box `bb` and its hull points `p`. */
  datatype BoundsLoop = BoundsLoop(bb: BoundingBox, p: seq<SmallPoint>)

  datatype Country = Country(country: string, loops: seq<BoundsLoop>)

  /** `BoundsHelper.expandPoint`: the first coordinate is the latitude. */
  function ExpandPoint(p: SmallPoint): Point {
    Point(p.0, p.1)
  }

  /** `loop.p.map(BoundsHelper.expandPoint)`. */
  function ExpandAll(ps: seq<SmallPoint>): (r: seq<Point>)
    ensures |r| == |ps|
    ensures forall i :: 0 <= i < |ps| ==> r[i].lat == ps[i].0 && r[i].lon == ps[i].1
  {
    seq(|ps|, i requires 0 <= i < |ps| => ExpandPoint(ps[i]))
  }

  /** A loop accepts a point when the point is in its box and the convex test accepts it. */
  predicate LoopAccepts(loop: BoundsLoop, point: Point, insideConvex: (seq<Point>, Point) -> bool) {
    PointInsideBounds(loop.bb, point) && insideConvex(ExpandAll(loop.p), point)
  }

  /**
   * The loop test of `pointInBounds` as written: the box test reads the
   * properties `0` to `3` of the box that the bounds file stores by name.
   */
  predicate LoopAcceptsAsWritten(loop: BoundsLoop, point: Point, insideConvex: (seq<Point>, Point) -> bool) {
    PointInsideStoredBounds(StoredBox(loop.bb), point) && insideConvex(ExpandAll(loop.p), point)
  }

  /** As written, no loop of any country accepts any point, whatever the convex test says. */
  lemma PointInBoundsAsWrittenRejects(countries: seq<Country>, point: Point, insideConvex: (seq<Point>, Point) -> bool)
    ensures forall c, l :: 0 <= c < |countries| && 0 <= l < |countries[c].loops| ==>
      !LoopAcceptsAsWritten(countries[c].loops[l], point, insideConvex)
  {
    forall c, l | 0 <= c < |countries| && 0 <= l < |countries[c].loops|
      ensures !LoopAcceptsAsWritten(countries[c].loops[l], point, insideConvex)
    {
      assert "0" !in StoredBox(countries[c].loops[l].bb);
    }
  }

  class BoundsHelper {
    /** The countries of the bounds file in key order; reading the file is not modelled. */
    var bounds: seq<Country>

    constructor(bounds: seq<Country>)
      ensures this.bounds == bounds
    {
      this.bounds := bounds;
    }

    /** `pointInBounds(lat, lon)`: some loop of some country accepts the point `{lat, lon}`. */
    method PointInBounds(lat: real, lon: real, insideConvex: (seq<Point>, Point) -> bool) returns (r: bool)
      ensures r <==> exists c, l :: (0 <= c < |bounds| && 0 <= l < |bounds[c].loops|
                                   && LoopAccepts(bounds[c].loops[l], Point(lat, lon), insideConvex))
      ensures |bounds| == 0 ==> !r
    {
      var p := Point(lat, lon);
      for c := 0 to |bounds|
        invariant forall c', l :: 0 <= c' < c && 0 <= l < |bounds[c'].loops| ==> !LoopAccepts(bounds[c'].loops[l], p, insideConvex)
      {
        var country := bounds[c];
        for l := 0 to |country.loops|
          invariant forall l' :: 0 <= l' < l ==> !LoopAccepts(country.loops[l'], p, insideConvex)
        {
          var loop := country.loops[l];
          var inbounds := PointInsideBounds(loop.bb, p);
          var inconvex := insideConvex(ExpandAll(loop.p), p);
          if inbounds && inconvex {
            return true;
          }
        }
      }
      return false;
    }
  }
}
