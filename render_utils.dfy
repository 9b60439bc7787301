/** The arithmetic of the renderer: the forward map from longitude/latitude
    to OpenGL coordinates, the flat vertex list built for one polygon ring,
    and the vertex list of the circle drawn for each station. */
module RenderUtils {
  import opened Constants
  import Arith

  /** A (lon, lat) or (x, y) pair, as the coordinate tuples of the geometry. */
  type Point = (real, real)

  /** x of the forward map at lon = min_lon. */
  const X_AT_ORIGIN: real := -1.0 + 2.0 * MARGIN / IMAGE_WIDTH - XAX_SHIFT
  /** y of the forward map at lat = min_lat. */
  const Y_AT_ORIGIN: real := -1.0 + 2.0 * MARGIN / IMAGE_HEIGHT - YAX_SHIFT

  /** `transform_coordinates`: offset from the origin, scale (with the
      vertical stretch on latitude), normalise to the drawing area, map
      to [-1, 1] and apply the margin and axis-shift corrections.
      The result is affine in each coordinate separately. */
  function TransformCoordinates(lon: real, lat: real, scale: real, minLon: real, minLat: real): (r: Point)
    ensures r.0 == X_AT_ORIGIN + (lon - minLon) * (2.0 * scale / DRAW_WIDTH)
    ensures r.1 == Y_AT_ORIGIN + (lat - minLat) * (2.0 * scale * VERT_STRETCH / DRAW_HEIGHT)
  {
    var lonDiff := lon - minLon;
    var latDiff := lat - minLat;
    var scaledLonDiff := lonDiff * scale;
    var scaledLatDiff := latDiff * scale * VERT_STRETCH;
    var normalizedLon := scaledLonDiff / DRAW_WIDTH;
    var normalizedLat := scaledLatDiff / DRAW_HEIGHT;
    var shiftedLon := normalizedLon * 2.0 - 1.0;
    var shiftedLat := normalizedLat * 2.0 - 1.0;
    var marginAdjustmentLon := 2.0 * MARGIN / IMAGE_WIDTH;
    var marginAdjustmentLat := 2.0 * MARGIN / IMAGE_HEIGHT;
    (shiftedLon + marginAdjustmentLon - XAX_SHIFT, shiftedLat + marginAdjustmentLat - YAX_SHIFT)
  }

  /** The geographic origin lands on the margin-and-shift corner. */
  lemma TransformAtOrigin(lon: real, lat: real, scale: real, minLon: real, minLat: real)
    ensures TransformCoordinates(minLon, lat, scale, minLon, minLat).0 == -1.0 + 2.0 * MARGIN / IMAGE_WIDTH - XAX_SHIFT
    ensures TransformCoordinates(lon, minLat, scale, minLon, minLat).1 == -1.0 + 2.0 * MARGIN / IMAGE_HEIGHT - YAX_SHIFT
  {
  }

  /** x depends on lon only and y on lat only. */
  lemma TransformSeparable(lon1: real, lat1: real, lon2: real, lat2: real, scale: real, minLon: real, minLat: real)
    ensures lon1 == lon2 ==>
      TransformCoordinates(lon1, lat1, scale, minLon, minLat).0 == TransformCoordinates(lon2, lat2, scale, minLon, minLat).0
    ensures lat1 == lat2 ==>
      TransformCoordinates(lon1, lat1, scale, minLon, minLat).1 == TransformCoordinates(lon2, lat2, scale, minLon, minLat).1
  {
  }

  /** For a positive scale, x is strictly increasing in lon and y strictly
      increasing in lat (both directions of the order are kept). */
  lemma TransformMonotone(lon1: real, lat1: real, lon2: real, lat2: real, scale: real, minLon: real, minLat: real)
    requires scale > 0.0
    ensures lon1 < lon2 <==>
      TransformCoordinates(lon1, lat1, scale, minLon, minLat).0 < TransformCoordinates(lon2, lat2, scale, minLon, minLat).0
    ensures lat1 < lat2 <==>
      TransformCoordinates(lon1, lat1, scale, minLon, minLat).1 < TransformCoordinates(lon2, lat2, scale, minLon, minLat).1
  {
    var kx := 2.0 * scale / DRAW_WIDTH;
    var ky := 2.0 * scale * VERT_STRETCH / DRAW_HEIGHT;
    assert kx > 0.0 && ky > 0.0;
    var p := TransformCoordinates(lon1, lat1, scale, minLon, minLat);
    var q := TransformCoordinates(lon2, lat2, scale, minLon, minLat);
    assert q.0 - p.0 == (lon2 - lon1) * kx;
    assert q.1 - p.1 == (lat2 - lat1) * ky;
    Arith.SignOfProduct(lon2 - lon1, kx);
    Arith.SignOfProduct(lat2 - lat1, ky);
  }

  /** The comprehension in `render_coords`: every coordinate pair of the ring
      transformed, one result per input, in input order. */
  function TransformAll(coords: seq<Point>, scale: real, minLon: real, minLat: real): (r: seq<Point>)
    ensures |r| == |coords|
    ensures forall k :: 0 <= k < |coords| ==>
      r[k] == TransformCoordinates(coords[k].0, coords[k].1, scale, minLon, minLat)
  {
    seq(|coords|, k requires 0 <= k < |coords| => TransformCoordinates(coords[k].0, coords[k].1, scale, minLon, minLat))
  }

  /** The vertex data `render_coords` hands to the GPU: the transformed
      pairs of the ring laid out flat, x then y, in ring order. */
  method RenderVertexData(coords: seq<Point>, scale: real, minLon: real, minLat: real) returns (vertexData: seq<real>)
    ensures |vertexData| == 2 * |coords|
    ensures forall k :: 0 <= k < |coords| ==>
      (vertexData[2 * k], vertexData[2 * k + 1]) == TransformCoordinates(coords[k].0, coords[k].1, scale, minLon, minLat)
  {
    var transformedVertices := TransformAll(coords, scale, minLon, minLat);
    vertexData := [];
    var n := 0;
    while n < |transformedVertices|
      invariant 0 <= n <= |transformedVertices|
      invariant |vertexData| == 2 * n
      invariant forall k :: 0 <= k < n ==> (vertexData[2 * k], vertexData[2 * k + 1]) == transformedVertices[k]
    {
      var (x, y) := transformedVertices[n];
      vertexData := vertexData + [x, y];
      n := n + 1;
    }
  }

  /** The aspect ratio `create_circle_vertex_data` writes as a literal. */
  const ASPECT_RATIO: real := 770.0 / 420.0
  /** The approximation of pi used for the circle's angles. */
  const PI_APPROX: real := 3.1415926

  /** Number of perimeter vertices `range(segments + 1)` produces. */
  function PerimeterCount(segments: int): (n: nat)
    ensures segments >= 0 ==> n == segments + 1
    ensures segments < 0 ==> n == 0
  {
    if segments >= 0 then segments + 1 else 0
  }

  /** Angle of the i-th perimeter vertex. The first perimeter vertex sits
      at angle 0 and the last one, i = segments, at a full turn, so the
      ring of vertices closes. */
  function Theta(i: int, segments: int): (t: real)
    requires segments != 0
    ensures i == 0 ==> t == 0.0
    ensures i == segments ==> t == 2.0 * PI_APPROX
  {
    2.0 * PI_APPROX * (i as real) / (segments as real)
  }

  /** `create_circle_vertex_data`: the centre, then one point per segment
      boundary on the ellipse of radius r stretched by the image aspect
      ratio. `cos` and `sin` stand for numpy's. A zero segment count is a
      division by zero in the source. */
  method CreateCircleVertexData(cx: real, cy: real, r: real, segments: int, cos: real -> real, sin: real -> real)
    returns (vertices: seq<real>)
    requires segments != 0
    ensures |vertices| == 2 + 2 * PerimeterCount(segments)
    ensures segments >= 0 ==> |vertices| == 2 * (segments + 2)
    ensures vertices[0] == cx && vertices[1] == cy
    ensures segments < 0 ==> vertices == [cx, cy]
    ensures forall i :: 0 <= i < PerimeterCount(segments) ==>
      vertices[2 + 2 * i] == cx + r * cos(Theta(i, segments)) &&
      vertices[3 + 2 * i] == cy + r * sin(Theta(i, segments)) * ASPECT_RATIO
  {
    vertices := [cx, cy];
    var i := 0;
    while i < segments + 1
      invariant 0 <= i <= PerimeterCount(segments)
      invariant |vertices| == 2 + 2 * i
      invariant vertices[0] == cx && vertices[1] == cy
      invariant forall k :: 0 <= k < i ==>
        vertices[2 + 2 * k] == cx + r * cos(Theta(k, segments)) &&
        vertices[3 + 2 * k] == cy + r * sin(Theta(k, segments)) * ASPECT_RATIO
    {
      var theta := 2.0 * PI_APPROX * (i as real) / (segments as real);
      var dx := r * cos(theta);
      var dy := r * sin(theta) * ASPECT_RATIO;
      vertices := vertices + [cx + dx, cy + dy];
      i := i + 1;
    }
  }
}
