/** The geometry side of the renderer: flattening the polygon exteriors of
    the loaded shapes into one point list, and fitting the bounding box of
    those points into the drawing area. */
module ShapefileUtils {
  import opened Constants
  import opened Extremes
  import RenderUtils
  import Arith

  type Point = RenderUtils.Point

  /** A polygon, reduced to the coordinates of its exterior ring. */
  datatype Polygon = Polygon(exterior: seq<Point>)

  /** A loaded shape: a MultiPolygon and its parts, or any other shape,
      which is read through its exterior ring as a polygon. */
  datatype Shape = PolygonShape(polygon: Polygon) | MultiPolygon(geoms: seq<Polygon>)

  // ---------------------------------------------------------------------
  // Flattening

  /** The exteriors of the polygons, concatenated in order: a point is
      among them exactly when it lies on the exterior of one of the
      polygons. */
  function PolygonsPoints(polygons: seq<Polygon>): (r: seq<Point>)
    ensures forall p :: p in r <==> exists k :: 0 <= k < |polygons| && p in polygons[k].exterior
  {
    if |polygons| == 0 then []
    else PolygonsPoints(polygons[..|polygons| - 1]) + polygons[|polygons| - 1].exterior
  }

  /** The points a shape contributes: the exteriors of a MultiPolygon's
      parts in order, or the exterior of any other shape. */
  function ShapePoints(shape: Shape): (r: seq<Point>)
    ensures shape.MultiPolygon? ==>
      forall p :: p in r <==> exists k :: 0 <= k < |shape.geoms| && p in shape.geoms[k].exterior
    ensures shape.PolygonShape? ==> r == shape.polygon.exterior
  {
    match shape
    case MultiPolygon(geoms) => PolygonsPoints(geoms)
    case PolygonShape(polygon) => polygon.exterior
  }

  /** The points of all the shapes, concatenated in shape order: a point is
      collected exactly when it is among the points of one of the shapes. */
  function AllPoints(shapes: seq<Shape>): (r: seq<Point>)
    ensures forall p :: p in r <==> exists k :: 0 <= k < |shapes| && p in ShapePoints(shapes[k])
  {
    if |shapes| == 0 then []
    else AllPoints(shapes[..|shapes| - 1]) + ShapePoints(shapes[|shapes| - 1])
  }

  /** The point list of a concatenation of shape lists is the concatenation
      of their point lists. */
  lemma {:induction false} AllPointsAppend(a: seq<Shape>, b: seq<Shape>)
    ensures AllPoints(a + b) == AllPoints(a) + AllPoints(b)
    decreases |b|
  {
    if |b| == 0 {
      assert a + b == a;
    } else {
      var n := |b| - 1;
      var init, last := AllPoints(b[..n]), ShapePoints(b[n]);
      assert AllPoints(a + b) == AllPoints(a + b[..n]) + last by {
        var ab := a + b;
        assert ab[..|ab| - 1] == a + b[..n];
        assert ab[|ab| - 1] == b[n];
      }
      assert AllPoints(a + b[..n]) == AllPoints(a) + init by {
        AllPointsAppend(a, b[..n]);
      }
      assert AllPoints(b) == init + last;
      assert (AllPoints(a) + init) + last == AllPoints(a) + (init + last);
    }
  }

  /** `collect_all_points`: one list, extended shape by shape with the
      exterior coordinates (part by part for a MultiPolygon). */
  method CollectAllPoints(shapes: seq<Shape>) returns (allPoints: seq<Point>)
    ensures allPoints == AllPoints(shapes)
  {
    allPoints := [];
    var i := 0;
    while i < |shapes|
      invariant 0 <= i <= |shapes|
      invariant allPoints == AllPoints(shapes[..i])
    {
      var shape := shapes[i];
      if shape.MultiPolygon? {
        var j := 0;
        while j < |shape.geoms|
          invariant 0 <= j <= |shape.geoms|
          invariant allPoints == AllPoints(shapes[..i]) + PolygonsPoints(shape.geoms[..j])
        {
          assert shape.geoms[..j + 1][..j] == shape.geoms[..j];
          allPoints := allPoints + shape.geoms[j].exterior;
          j := j + 1;
        }
        assert shape.geoms[..j] == shape.geoms;
      } else {
        allPoints := allPoints + shape.polygon.exterior;
      }
      assert shapes[..i + 1][..i] == shapes[..i];
      i := i + 1;
    }
    assert shapes[..i] == shapes;
  }

  // ---------------------------------------------------------------------
  // Scaling

  /** Why `calculate_scaling` fails: `min` of an empty list, or a division
      by a zero longitude or latitude extent. */
  datatype ScalingError = EmptyPointList | ZeroLonExtent | ZeroLatExtent

  /** The three values `calculate_scaling` returns. */
  datatype Scaling = Scaling(scale: real, minLon: real, minLat: real)

  datatype Result<T> = Success(value: T) | Failure(error: ScalingError)

  /** The longitudes of the points, in order. */
  function Lons(points: seq<Point>): (lons: seq<real>)
    ensures |lons| == |points|
    ensures forall k :: 0 <= k < |points| ==> lons[k] == points[k].0
  {
    seq(|points|, k requires 0 <= k < |points| => points[k].0)
  }

  /** The latitudes of the points, in order. */
  function Lats(points: seq<Point>): (lats: seq<real>)
    ensures |lats| == |points|
    ensures forall k :: 0 <= k < |points| ==> lats[k] == points[k].1
  {
    seq(|points|, k requires 0 <= k < |points| => points[k].1)
  }

  /** The bounding-box computation of `calculate_scaling` on the gathered
      points: min and max of each coordinate, the two ratios of drawing
      size to extent, and 0.95 times the smaller ratio. The longitude ratio
      is computed, and so can fail, first. */
  function ScalingOf(points: seq<Point>): (r: Result<Scaling>)
    ensures r == Failure(EmptyPointList) <==> |points| == 0
    ensures r.Success? ==>
      r.value.scale > 0.0 && r.value.minLon in Lons(points) && r.value.minLat in Lats(points)
  {
    if |points| == 0 then Failure(EmptyPointList)
    else
      var minLon := SeqMin(Lons(points));
      var maxLon := SeqMax(Lons(points));
      var minLat := SeqMin(Lats(points));
      var maxLat := SeqMax(Lats(points));
      if maxLon - minLon == 0.0 then Failure(ZeroLonExtent)
      else
        var scaleX := DRAW_WIDTH / (maxLon - minLon);
        if maxLat - minLat == 0.0 then Failure(ZeroLatExtent)
        else
          var scaleY := DRAW_HEIGHT / (maxLat - minLat);
          Arith.PositiveQuotient(DRAW_WIDTH, maxLon - minLon);
          Arith.PositiveQuotient(DRAW_HEIGHT, maxLat - minLat);
          Success(Scaling(Min(scaleX, scaleY) * 0.95, minLon, minLat))
  }

  /** `calculate_scaling`: gathers the points with its own copy of the loop
      of `collect_all_points`, then fits their bounding box. */
  method CalculateScaling(shapes: seq<Shape>) returns (r: Result<Scaling>)
    ensures r == ScalingOf(AllPoints(shapes))
  {
    var allPoints := [];
    var i := 0;
    while i < |shapes|
      invariant 0 <= i <= |shapes|
      invariant allPoints == AllPoints(shapes[..i])
    {
      var shape := shapes[i];
      if shape.MultiPolygon? {
        var j := 0;
        while j < |shape.geoms|
          invariant 0 <= j <= |shape.geoms|
          invariant allPoints == AllPoints(shapes[..i]) + PolygonsPoints(shape.geoms[..j])
        {
          assert shape.geoms[..j + 1][..j] == shape.geoms[..j];
          allPoints := allPoints + shape.geoms[j].exterior;
          j := j + 1;
        }
        assert shape.geoms[..j] == shape.geoms;
      } else {
        allPoints := allPoints + shape.polygon.exterior;
      }
      assert shapes[..i + 1][..i] == shapes[..i];
      i := i + 1;
    }
    assert shapes[..i] == shapes;
    r := ScalingOf(allPoints);
  }

  /** The longitude extent of a non-empty point list. */
  function LonExtent(points: seq<Point>): (e: real)
    requires |points| > 0
    ensures e >= 0.0
  {
    SeqMax(Lons(points)) - SeqMin(Lons(points))
  }

  /** The latitude extent of a non-empty point list. */
  function LatExtent(points: seq<Point>): (e: real)
    requires |points| > 0
    ensures e >= 0.0
  {
    SeqMax(Lats(points)) - SeqMin(Lats(points))
  }

  /** When the computation fails, and with which error: an empty list, else
      a zero longitude extent, else a zero latitude extent; it succeeds
      exactly when both extents are positive. */
  lemma ScalingOutcome(points: seq<Point>)
    ensures ScalingOf(points) == Failure(EmptyPointList) <==> |points| == 0
    ensures ScalingOf(points) == Failure(ZeroLonExtent) <==> |points| > 0 && LonExtent(points) == 0.0
    ensures ScalingOf(points) == Failure(ZeroLatExtent) <==>
      |points| > 0 && LonExtent(points) > 0.0 && LatExtent(points) == 0.0
    ensures ScalingOf(points).Success? <==> |points| > 0 && LonExtent(points) > 0.0 && LatExtent(points) > 0.0
  {
  }

  /** The returned minima are attained by some point and bound every point,
      and every point lies within the extents of the minima. */
  lemma ScalingMinima(points: seq<Point>, s: Scaling)
    requires ScalingOf(points) == Success(s)
    ensures forall p :: p in points ==> s.minLon <= p.0 && s.minLat <= p.1
    ensures exists p :: p in points && p.0 == s.minLon
    ensures exists p :: p in points && p.1 == s.minLat
    ensures forall p :: p in points ==>
      p.0 - s.minLon <= LonExtent(points) && p.1 - s.minLat <= LatExtent(points)
  {
    var lons, lats := Lons(points), Lats(points);
    forall p | p in points
      ensures SeqMin(lons) <= p.0 <= SeqMax(lons) && SeqMin(lats) <= p.1 <= SeqMax(lats)
    {
      var k :| 0 <= k < |points| && points[k] == p;
      assert lons[k] in lons && lats[k] in lats;
    }
    var i :| 0 <= i < |lons| && lons[i] == SeqMin(lons);
    assert points[i] in points;
    var j :| 0 <= j < |lats| && lats[j] == SeqMin(lats);
    assert points[j] in points;
  }

  /** The scale is 0.95 times the smaller of the two ratios of drawing size
      to extent, hence at most 0.95 times each of them, and positive. */
  lemma ScaleFactor(points: seq<Point>, s: Scaling)
    requires ScalingOf(points) == Success(s)
    ensures LonExtent(points) > 0.0 && LatExtent(points) > 0.0
    ensures s.scale == 0.95 * Min(DRAW_WIDTH / LonExtent(points), DRAW_HEIGHT / LatExtent(points))
    ensures s.scale <= 0.95 * (DRAW_WIDTH / LonExtent(points))
    ensures s.scale <= 0.95 * (DRAW_HEIGHT / LatExtent(points))
    ensures s.scale > 0.0
  {
    ScalingOutcome(points);
    Arith.PositiveQuotient(DRAW_WIDTH, LonExtent(points));
    Arith.PositiveQuotient(DRAW_HEIGHT, LatExtent(points));
  }

  /** One point inside the box [minLon, minLon + ex] x [minLat, minLat + ey],
      offset and scaled by a factor at most 0.95 times each ratio of
      drawing size to extent, fits in 0.95 times the drawing area. */
  lemma PointFits(p: Point, s: Scaling, ex: real, ey: real)
    requires s.minLon <= p.0 && p.0 - s.minLon <= ex && ex > 0.0
    requires s.minLat <= p.1 && p.1 - s.minLat <= ey && ey > 0.0
    requires 0.0 < s.scale <= 0.95 * (DRAW_WIDTH / ex) && s.scale <= 0.95 * (DRAW_HEIGHT / ey)
    ensures 0.0 <= (p.0 - s.minLon) * s.scale <= 0.95 * DRAW_WIDTH
    ensures 0.0 <= (p.1 - s.minLat) * s.scale <= 0.95 * DRAW_HEIGHT
  {
    Arith.FitWithin(p.0 - s.minLon, ex, s.scale, DRAW_WIDTH, 0.95);
    Arith.FitWithin(p.1 - s.minLat, ey, s.scale, DRAW_HEIGHT, 0.95);
  }

  /** Every point, offset from the returned minima and multiplied by the
      scale, fits in 0.95 times the drawing area. */
  lemma PointsFitDrawingArea(points: seq<Point>, s: Scaling)
    requires ScalingOf(points) == Success(s)
    ensures forall p :: p in points ==>
      0.0 <= (p.0 - s.minLon) * s.scale <= 0.95 * DRAW_WIDTH &&
      0.0 <= (p.1 - s.minLat) * s.scale <= 0.95 * DRAW_HEIGHT
  {
    ScalingMinima(points, s);
    ScaleFactor(points, s);
    forall p | p in points
      ensures 0.0 <= (p.0 - s.minLon) * s.scale <= 0.95 * DRAW_WIDTH
      ensures 0.0 <= (p.1 - s.minLat) * s.scale <= 0.95 * DRAW_HEIGHT
    {
      PointFits(p, s, LonExtent(points), LatExtent(points));
    }
  }

  /** A point whose scaled offsets fit in 0.95 times the drawing area is
      drawn inside the box of width 1.9 and height 1.9 * VERT_STRETCH
      whose lower-left corner is the image of the origin. */
  lemma PointInBox(p: Point, s: Scaling)
    requires 0.0 <= (p.0 - s.minLon) * s.scale <= 0.95 * DRAW_WIDTH
    requires 0.0 <= (p.1 - s.minLat) * s.scale <= 0.95 * DRAW_HEIGHT
    ensures RenderUtils.X_AT_ORIGIN <= RenderUtils.TransformCoordinates(p.0, p.1, s.scale, s.minLon, s.minLat).0
            <= RenderUtils.X_AT_ORIGIN + 1.9
    ensures RenderUtils.Y_AT_ORIGIN <= RenderUtils.TransformCoordinates(p.0, p.1, s.scale, s.minLon, s.minLat).1
            <= RenderUtils.Y_AT_ORIGIN + 1.9 * VERT_STRETCH
  {
    var dx := (p.0 - s.minLon) * s.scale;
    var dy := (p.1 - s.minLat) * s.scale;
    assert (p.0 - s.minLon) * (2.0 * s.scale / DRAW_WIDTH) == dx * (2.0 / DRAW_WIDTH);
    assert (p.1 - s.minLat) * (2.0 * s.scale * VERT_STRETCH / DRAW_HEIGHT) == dy * (2.0 * VERT_STRETCH / DRAW_HEIGHT);
  }

  /** Drawn with the computed scaling, every point lands in the box of
      width 1.9 and height 1.9 * VERT_STRETCH whose lower-left corner is
      the image of the origin. Since the vertical stretch is applied after
      the fit, the top of that box lies above y = 1. */
  lemma TransformedPointsInBox(points: seq<Point>, s: Scaling)
    requires ScalingOf(points) == Success(s)
    ensures forall p :: p in points ==>
      RenderUtils.X_AT_ORIGIN <= RenderUtils.TransformCoordinates(p.0, p.1, s.scale, s.minLon, s.minLat).0
        <= RenderUtils.X_AT_ORIGIN + 1.9 &&
      RenderUtils.Y_AT_ORIGIN <= RenderUtils.TransformCoordinates(p.0, p.1, s.scale, s.minLon, s.minLat).1
        <= RenderUtils.Y_AT_ORIGIN + 1.9 * VERT_STRETCH
  {
    PointsFitDrawingArea(points, s);
    forall p | p in points
      ensures RenderUtils.X_AT_ORIGIN <= RenderUtils.TransformCoordinates(p.0, p.1, s.scale, s.minLon, s.minLat).0
        <= RenderUtils.X_AT_ORIGIN + 1.9
      ensures RenderUtils.Y_AT_ORIGIN <= RenderUtils.TransformCoordinates(p.0, p.1, s.scale, s.minLon, s.minLat).1
        <= RenderUtils.Y_AT_ORIGIN + 1.9 * VERT_STRETCH
    {
      PointInBox(p, s);
    }
  }

  /** Horizontally the fitted map stays strictly inside the viewport, and
      it never reaches below its bottom edge. */
  lemma TransformedPointsInViewport(points: seq<Point>, s: Scaling)
    requires ScalingOf(points) == Success(s)
    ensures forall p :: p in points ==>
      -1.0 < RenderUtils.TransformCoordinates(p.0, p.1, s.scale, s.minLon, s.minLat).0 < 1.0 &&
      -1.0 < RenderUtils.TransformCoordinates(p.0, p.1, s.scale, s.minLon, s.minLat).1
  {
    TransformedPointsInBox(points, s);
    forall p | p in points
      ensures -1.0 < RenderUtils.TransformCoordinates(p.0, p.1, s.scale, s.minLon, s.minLat).0 < 1.0
      ensures -1.0 < RenderUtils.TransformCoordinates(p.0, p.1, s.scale, s.minLon, s.minLat).1
    {
      var q := RenderUtils.TransformCoordinates(p.0, p.1, s.scale, s.minLon, s.minLat);
      BoxInViewport(q.0, q.1);
    }
  }

  /** The box of TransformedPointsInBox, apart from its top, is inside the
      viewport (-1, 1) x (-1, 1). */
  lemma BoxInViewport(x: real, y: real)
    requires RenderUtils.X_AT_ORIGIN <= x <= RenderUtils.X_AT_ORIGIN + 1.9
    requires RenderUtils.Y_AT_ORIGIN <= y
    ensures -1.0 < x < 1.0 && -1.0 < y
  {
  }

  /** The fitted map can leave the viewport at the top: for a square
      bounding box the latitude ratio is the smaller one, the scale is
      0.95 * DRAW_HEIGHT, and the stretched top corner lands above y = 1. */
  lemma TopCanLeaveViewport()
    ensures ScalingOf([(0.0, 0.0), (1.0, 1.0)]) == Success(Scaling(304.0, 0.0, 0.0))
    ensures RenderUtils.TransformCoordinates(1.0, 1.0, 304.0, 0.0, 0.0).1 > 1.0
  {
    var points: seq<Point> := [(0.0, 0.0), (1.0, 1.0)];
    assert Lons(points) == [0.0, 1.0];
    assert Lats(points) == [0.0, 1.0];
    assert [0.0, 1.0][1..] == [1.0];
    assert SeqMin([0.0, 1.0]) == 0.0;
    assert SeqMax([0.0, 1.0]) == 1.0;
  }
}
