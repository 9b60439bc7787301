# ok-mapper core, modelled in Dafny

ok-mapper draws a map of Oklahoma with an air-temperature field. Its arithmetic
core is modelled and verified here, over exact real numbers:

- **Barnes interpolation** (`src/barnes.py`). Every cell of a 2-D grid gets a
  first guess. That guess is the Gaussian-weighted mean of the station
  temperatures (`tair`), seen from the cell's geographic position. Then
  `iterations - 1` successive-correction passes run. Each pass writes its
  corrections into a separate zeroed buffer and adds the buffer to the grid
  after the sweep. The grid is an `array2<real>` updated in place. The mapping
  from a grid index to a longitude and latitude (`grid_coords_to_lon_lat`) is a
  pure function.
- **The forward map** (`src/render_utils.py`). `transform_coordinates` is an
  affine map from longitude/latitude to OpenGL coordinates. Also modelled: the
  per-coordinate mapping and flat vertex list of `render_coords`, and the
  vertex list `create_circle_vertex_data` builds for a station marker.
- **Bounding-box scaling** (`src/shapefile_utils.py`).
  - `collect_all_points` flattens the exterior rings of the shapes, expanding
    each MultiPolygon part by part.
  - `calculate_scaling` gathers the same points with its own copy of that
    loop. It then fits their bounding box into the drawing area with the
    scale `0.95 * min(DRAW_WIDTH / Δlon, DRAW_HEIGHT / Δlat)`.

The modules are:

- `Constants`: the configuration constants, as reals.
- `Extremes`: Python's `min`/`max`.
- `Sums`: `np.sum` over a comprehension, as a sum of a function over a
  sequence, with its algebra.
- `Arith`: small facts of real arithmetic.
- `RenderUtils`, `ShapefileUtils` and `Barnes`: the three source files.

Some facts the proofs bring out about the source:

- **A correction pass restores the first guess.** A correction is computed as
  `Σ w·(tair − g) / Σ w`, where `g` is the cell's current value and the
  weights are the first-guess weights. That is exactly the cell's first-guess
  value minus `g` (`Barnes.Correction`). After any pass, every cell therefore
  holds its first-guess value again (`Barnes.CorrectionPass`). A pass applied
  to a first-guess grid changes nothing, so the result of
  `barnes_interpolation` does not depend on `iterations`, as long as the
  arithmetic is exact.
- **Cell positions ignore the smoothing scale.** They always come from the
  module constants `SCALE_FACTOR`, `MIN_LON` and `MIN_LAT`, never from the
  Barnes `scale_factor` argument (`Barnes.CellPosition`).
- **The grid keeps its shape.** The array's dimensions cannot change.
- **The fitted map can be clipped at the top.** `calculate_scaling` fits the
  bounding box into 0.95 of the drawing area without the vertical stretch.
  `transform_coordinates` applies `VERT_STRETCH` (1.08) to latitudes
  afterwards. When the latitude ratio is the smaller one, the top of the map
  lands above y = 1, outside the viewport (`ShapefileUtils.TopCanLeaveViewport`).
  Horizontally the map always stays inside
  (`ShapefileUtils.TransformedPointsInViewport`).

## Model

| member | source | states |
|---|---|---|
| `Extremes.Min` | src/shapefile_utils.py:33 | `min(a, b)` is one of its arguments and no larger than either |
| `Extremes.SeqMin` | src/shapefile_utils.py:25-28 | `min` of a non-empty list is a member of the list and at most every member |
| `Extremes.Max` | src/shapefile_utils.py:26-28 | `max(a, b)` is one of its arguments and no smaller than either |
| `Extremes.SeqMax` | src/shapefile_utils.py:25-28 | `max` of a non-empty list is a member of the list and at least every member |
| `RenderUtils.TransformCoordinates` | src/render_utils.py:62-89 | the forward map is affine in each coordinate: x = X_AT_ORIGIN + (lon − min_lon)·2s/DRAW_WIDTH and y = Y_AT_ORIGIN + (lat − min_lat)·2s·VERT_STRETCH/DRAW_HEIGHT |
| `RenderUtils.TransformAtOrigin` | src/render_utils.py:66-87 | lon = min_lon maps to x = −1 + 2·MARGIN/IMAGE_WIDTH − XAX_SHIFT; lat = min_lat maps to y = −1 + 2·MARGIN/IMAGE_HEIGHT − YAX_SHIFT |
| `RenderUtils.TransformSeparable` | src/render_utils.py:66-87 | x depends only on lon and y only on lat |
| `RenderUtils.TransformMonotone` | src/render_utils.py:66-87 | for a positive scale, lon1 < lon2 iff x1 < x2, and lat1 < lat2 iff y1 < y2 |
| `RenderUtils.RenderVertexData` | src/render_utils.py:47-55 | the vertex list has 2·n entries; entries 2k and 2k+1 are the transformed k-th coordinate |
| `RenderUtils.Theta` | src/render_utils.py:100 | the first perimeter vertex is at angle 0 and vertex i = segments at a full turn 2·3.1415926, so the ring closes |
| `RenderUtils.CreateCircleVertexData` | src/render_utils.py:92-105 | length 2 + 2·(segments + 1), that is 2·(segments + 2), for segments ≥ 0; entries 0 and 1 are (cx, cy); then, for each i, cx + r·cos θᵢ and cy + r·sin θᵢ·aspect ratio; for negative segments, only (cx, cy) |
| `ShapefileUtils.PolygonsPoints` | src/shapefile_utils.py:41-42 | a point is among a MultiPolygon's collected points iff it lies on the exterior of one of its parts |
| `ShapefileUtils.ShapePoints` | src/shapefile_utils.py:40-44 | a MultiPolygon contributes exactly the points on its parts' exteriors; any other shape contributes its exterior |
| `ShapefileUtils.AllPoints` | src/shapefile_utils.py:36-45 | a point is collected iff it belongs to the points of one of the shapes |
| `ShapefileUtils.AllPointsAppend` | src/shapefile_utils.py:36-45 | collecting the points of two shape lists one after the other gives the concatenation of their point lists |
| `ShapefileUtils.CollectAllPoints` | src/shapefile_utils.py:36-45 | the nested loop returns the exteriors concatenated in shape order, with a MultiPolygon's parts expanded in order |
| `ShapefileUtils.CalculateScaling` | src/shapefile_utils.py:13-33 | the gather loop builds the same point list as `collect_all_points`, and the result is the bounding-box scaling of that list, error cases included |
| `ShapefileUtils.ScalingOf` | src/shapefile_utils.py:25-33 | it fails with the empty-list error iff there are no points; on success the scale is positive and min_lon, min_lat are longitudes and latitudes of the points |
| `ShapefileUtils.LonExtent` | src/shapefile_utils.py:30 | the longitude extent max_lon − min_lon is never negative |
| `ShapefileUtils.LatExtent` | src/shapefile_utils.py:31 | the latitude extent max_lat − min_lat is never negative |
| `ShapefileUtils.ScalingOutcome` | src/shapefile_utils.py:25-31 | the empty list fails (at `min`); otherwise a zero lon extent fails first, then a zero lat extent; it succeeds iff the list is non-empty and both extents are positive |
| `ShapefileUtils.ScalingMinima` | src/shapefile_utils.py:25-28 | the returned min_lon and min_lat bound every point from below and are attained by some point; every offset from them is within the extent |
| `ShapefileUtils.ScaleFactor` | src/shapefile_utils.py:30-33 | scale = 0.95·min(DRAW_WIDTH/Δlon, DRAW_HEIGHT/Δlat), so it is at most 0.95 times each ratio, and it is positive |
| `ShapefileUtils.PointsFitDrawingArea` | src/shapefile_utils.py:25-33 | every point has 0 ≤ (lon − min_lon)·scale ≤ 0.95·DRAW_WIDTH and 0 ≤ (lat − min_lat)·scale ≤ 0.95·DRAW_HEIGHT |
| `ShapefileUtils.TransformedPointsInBox` | src/shapefile_utils.py:33 | with the returned scaling, the forward map sends every point into the box from the image of the origin, of width 1.9 and height 1.9·VERT_STRETCH; the stretch is applied after the fit, so the top of the box lies above y = 1 |
| `ShapefileUtils.TransformedPointsInViewport` | src/shapefile_utils.py:30-33 | with the returned scaling, every point is drawn with −1 < x < 1 and y > −1 |
| `ShapefileUtils.TopCanLeaveViewport` | src/render_utils.py:71 | the points (0, 0) and (1, 1) get scale 304 and min (0, 0), and (1, 1) is drawn above y = 1 |
| `Barnes.LonRoundTrip` | src/barnes.py:41-57 | the longitude of grid index i, mapped forward, gives x = 2i/IMAGE_WIDTH − 1 |
| `Barnes.LatRoundTrip` | src/barnes.py:42-58 | the latitude of grid index j, mapped forward, gives y = 2j/IMAGE_HEIGHT − 1 |
| `Barnes.GridToGeoToGrid` | src/barnes.py:37-60 | for a non-zero scale, `transform_coordinates` after `grid_coords_to_lon_lat` gives (2i/IMAGE_WIDTH − 1, 2j/IMAGE_HEIGHT − 1) |
| `Barnes.GeoToGridToGeo` | src/barnes.py:37-60 | for a non-zero scale, the grid index ((x+1)·IMAGE_WIDTH/2, (y+1)·IMAGE_HEIGHT/2) of a forward-mapped point maps back to the original (lon, lat) |
| `Barnes.CellPosition` | src/barnes.py:16 | a cell's position is computed with SCALE_FACTOR, MIN_LON and MIN_LAT, and the forward map with those constants sends it back to (2i/IMAGE_WIDTH − 1, 2j/IMAGE_HEIGHT − 1) |
| `Barnes.Gaussian` | src/barnes.py:6-8 | every Gaussian weight is positive for a non-zero scale |
| `Barnes.GaussianAtZero` | src/barnes.py:6-8 | gaussian(0, s) = 1 |
| `Barnes.GaussianSymmetric` | src/barnes.py:6-8 | gaussian(−d, s) = gaussian(d, s) |
| `Barnes.SquaredDistance` | src/barnes.py:18 | the squared Euclidean distance is never negative, and zero exactly at the station's own position |
| `Barnes.Weight` | src/barnes.py:17-19 | a station's weight is positive and equals the Gaussian of every d whose square is the squared Euclidean distance |
| `Barnes.WeightedMean` | src/barnes.py:20 | Σ w·tair / Σ w lies between the smallest and the largest station temperature |
| `Barnes.MeanWithin` | src/barnes.py:20 | when every tair lies in [lo, hi], the total weight is positive and Σ w·tair / Σ w lies in [lo, hi] |
| `Barnes.TermsWithin` | src/barnes.py:20 | termwise lo·w ≤ w·tair ≤ hi·w when every tair lies in [lo, hi] |
| `Barnes.DifferenceSum` | src/barnes.py:27-31 | Σ w·(tair − g) = Σ w·tair − g·Σ w |
| `Barnes.DifferenceMean` | src/barnes.py:27-31 | Σ w·(tair − g) / Σ w = Σ w·tair / Σ w − g |
| `Barnes.MeanCorrection` | src/barnes.py:27-31 | the correction Σ w·(tair − g) / Σ w equals the weighted mean minus g, for any positive weights |
| `Barnes.MeanOfOne` | src/barnes.py:17-20 | the weighted mean of one station is its tair, whatever its weight |
| `Barnes.MeanOfEqualPair` | src/barnes.py:17-20 | two stations of equal weight give the arithmetic mean of their tairs |
| `Barnes.MeanOrderIrrelevant` | src/barnes.py:17-20 | permuting the station list leaves the weighted mean unchanged |
| `Barnes.WeightOf` | src/barnes.py:28-30 | the weights seen from a position are positive for every station |
| `Barnes.WeightedAverage` | src/barnes.py:17-20 | the Gaussian-weighted mean of the tairs seen from a position lies between the smallest and the largest station tair |
| `Barnes.FirstGuessWithinStationRange` | src/barnes.py:17-20 | each first-guess value lies between the minimum and the maximum station tair |
| `Barnes.Correction` | src/barnes.py:26-31 | the correction of a cell with current value g is its first-guess value minus g |
| `Barnes.SingleStation` | src/barnes.py:17-20 | with exactly one station, the first guess everywhere is that station's tair |
| `Barnes.EquidistantPairGivesMean` | src/barnes.py:17-20 | two stations at the same distance from a position give their arithmetic mean there |
| `Barnes.StationOrderIrrelevant` | src/barnes.py:17-20 | the interpolated value does not depend on the order of the station list |
| `Barnes.CellAverage` | src/barnes.py:15-20 | the first-guess value of cell (i, j) lies between the smallest and the largest station tair |
| `Barnes.CellCorrection` | src/barnes.py:25-31 | the correction of cell (i, j) is its first-guess value minus its current value |
| `Barnes.FirstGuess` | src/barnes.py:15-20 | after the sweep every cell holds the weighted mean at its position |
| `Barnes.FirstGuessRow` | src/barnes.py:15-20 | one row of the sweep: row i gets its first guesses and no other row changes |
| `Barnes.ComputeCorrections` | src/barnes.py:24-31 | a fresh buffer of the grid's shape holds, for every cell, the correction computed from the pre-pass grid; the grid is not modified |
| `Barnes.CorrectRow` | src/barnes.py:25-31 | one row of the correction sweep: buffer row i gets the corrections of grid row i and no other buffer row changes |
| `Barnes.AddInPlace` | src/barnes.py:32 | `grid += corrections`: every cell becomes its old value plus its correction |
| `Barnes.CorrectionPass` | src/barnes.py:24-32 | every cell becomes old value + correction(old value), which is its first-guess value; a pass over a first-guess grid changes nothing |
| `Barnes.BarnesInterpolation` | src/barnes.py:11-34 | the input grid is returned, updated in place; max(iterations − 1, 0) passes run; every cell holds its first-guess value, within the range of the station temperatures |

## Left out

- `src/main.py` is not part of this model: the moderngl context, framebuffers and the PIL image save are GPU and file plumbing.
- `src/shaders.py` is not part of this model: it only holds GLSL source strings.
- `src/csv_utils.py` is not part of this model: it reads CSV files and parses `float()` values.
- `load_shapefile` is not modelled: it only reads files through pyshp and shapely. Shapes enter the model as values.
- The GPU calls in `render_coords`, `render_all_shapes` and `render_points` are not modelled (`context.program`, `context.buffer`, `vao.render`).
- The `struct.pack('2f', …)` byte encoding in `render_coords` is not modelled. `RenderUtils.RenderVertexData` returns the pairs as reals, not as float32 bytes.
- Floating point is not modelled. Every quantity is an exact real. The round trips, "a correction pass restores the first guess" and the fit bounds hold exactly only over the reals. IEEE rounding, overflow and underflow are left out.
- `np.exp`, `np.cos` and `np.sin` are parameters of the members that use them. The only facts assumed about `exp` are `exp(0) = 1` and `exp(x) > 0` (`Barnes.IsExp`). Nothing is assumed about `cos` and `sin`. The circle's angles use the source's constant 3.1415926.
- Barnes.BarnesInterpolation requires a non-empty station list and a non-zero scale. In the source these give `0/0` or a division by zero inside numpy, which yields NaN and a warning rather than an exception. The model does not describe the NaN grid.
- Barnes.BarnesInterpolation reports its number of correction passes only as a ghost out-parameter. The source does not return it, and the grid gives no evidence of it.
- numpy's `ndindex` and `zeros_like` are written as row-major `while` loops and a zero-initialised `array2`.
- RenderUtils.CreateCircleVertexData requires segments ≠ 0. With zero segments the source raises `ZeroDivisionError` at `float(i) / float(segments)`, and that exception is not modelled.
- `ShapefileUtils` models only two kinds of shape: MultiPolygon, and anything read through `.exterior` as a polygon. A shape without an exterior ring (for example a LineString) raises `AttributeError` in the source and has no counterpart here.
- Barnes.GridCoordsToLonLat requires a non-zero scale. With a zero `scale_factor` the source raises `ZeroDivisionError` at src/barnes.py:57, and the model does not describe that error. Every call in the source passes the constant `SCALE_FACTOR` (src/barnes.py:16 and 26), so no call reaches it. The function has no `ensures` of its own; its meaning is stated by the round-trip lemmas `Barnes.GridToGeoToGrid` and `Barnes.GeoToGridToGeo`.
