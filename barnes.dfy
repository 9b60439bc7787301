/** Barnes objective interpolation of station temperatures onto a grid: a
    Gaussian-weighted first guess followed by successive-correction passes,
    each of which computes every correction from the pre-pass grid into a
    separate buffer and adds the buffer to the grid afterwards.

    numpy's `exp` is a parameter `exp` of every member that needs it; the
    only facts used about it are those of `IsExp`. */
module Barnes {
  import opened Constants
  import opened Sums
  import opened Extremes
  import RenderUtils
  import opened Arith

  /** One weather-station observation. */
  datatype Station = Station(lon: real, lat: real, tair: real)

  /** What the model relies on about the exponential function. */
  ghost predicate IsExp(exp: real -> real)
  {
    exp(0.0) == 1.0 && forall x :: exp(x) > 0.0
  }

  // ---------------------------------------------------------------------
  // Grid index to geographic position

  /** `grid_coords_to_lon_lat`: undo the forward map step by step, from a
      grid index to the longitude and latitude it stands for. */
  function GridCoordsToLonLat(i: real, j: real, scale: real, minLon: real, minLat: real): (real, real)
    requires scale != 0.0
  {
    var transformedLon := 2.0 * (i / IMAGE_WIDTH) - 1.0;
    var transformedLat := 2.0 * (j / IMAGE_HEIGHT) - 1.0;
    var adjustedLon := transformedLon - 2.0 * MARGIN / IMAGE_WIDTH + XAX_SHIFT;
    var adjustedLat := transformedLat - 2.0 * MARGIN / IMAGE_HEIGHT + YAX_SHIFT;
    var normalizedLon := (adjustedLon + 1.0) / 2.0;
    var normalizedLat := (adjustedLat + 1.0) / 2.0;
    var scaledLonDiff := normalizedLon * DRAW_WIDTH;
    var scaledLatDiff := normalizedLat * DRAW_HEIGHT;
    var lon := scaledLonDiff / scale + minLon;
    var lat := scaledLatDiff / (scale * VERT_STRETCH) + minLat;
    (lon, lat)
  }

  /** The x half of GridToGeoToGrid. */
  lemma LonRoundTrip(i: real, j: real, scale: real, minLon: real, minLat: real)
    requires scale != 0.0
    ensures var (lon, lat) := GridCoordsToLonLat(i, j, scale, minLon, minLat);
      RenderUtils.TransformCoordinates(lon, lat, scale, minLon, minLat).0 == 2.0 * i / IMAGE_WIDTH - 1.0
  {
    var scaledLonDiff := ((2.0 * (i / IMAGE_WIDTH) - 1.0) - 2.0 * MARGIN / IMAGE_WIDTH + XAX_SHIFT + 1.0) / 2.0 * DRAW_WIDTH;
    QuotientTimes(scaledLonDiff, scale, 2.0 / DRAW_WIDTH);
  }

  /** The y half of GridToGeoToGrid. */
  lemma LatRoundTrip(i: real, j: real, scale: real, minLon: real, minLat: real)
    requires scale != 0.0
    ensures var (lon, lat) := GridCoordsToLonLat(i, j, scale, minLon, minLat);
      RenderUtils.TransformCoordinates(lon, lat, scale, minLon, minLat).1 == 2.0 * j / IMAGE_HEIGHT - 1.0
  {
    var scaledLatDiff := ((2.0 * (j / IMAGE_HEIGHT) - 1.0) - 2.0 * MARGIN / IMAGE_HEIGHT + YAX_SHIFT + 1.0) / 2.0 * DRAW_HEIGHT;
    QuotientTimes(scaledLatDiff, scale * VERT_STRETCH, 2.0 / DRAW_HEIGHT);
  }

  /** Feeding the position of grid index (i, j) back through the forward
      map gives the normalised index (2i / IMAGE_WIDTH - 1, 2j / IMAGE_HEIGHT - 1). */
  lemma GridToGeoToGrid(i: real, j: real, scale: real, minLon: real, minLat: real)
    requires scale != 0.0
    ensures var (lon, lat) := GridCoordsToLonLat(i, j, scale, minLon, minLat);
      RenderUtils.TransformCoordinates(lon, lat, scale, minLon, minLat)
        == (2.0 * i / IMAGE_WIDTH - 1.0, 2.0 * j / IMAGE_HEIGHT - 1.0)
  {
    LonRoundTrip(i, j, scale, minLon, minLat);
    LatRoundTrip(i, j, scale, minLon, minLat);
  }

  /** The other direction: the grid index computed from a forward-mapped
      point, (x + 1) * IMAGE_WIDTH / 2 and (y + 1) * IMAGE_HEIGHT / 2, is
      mapped back to the original longitude and latitude. */
  lemma GeoToGridToGeo(lon: real, lat: real, scale: real, minLon: real, minLat: real)
    requires scale != 0.0
    ensures var p := RenderUtils.TransformCoordinates(lon, lat, scale, minLon, minLat);
      GridCoordsToLonLat((p.0 + 1.0) * IMAGE_WIDTH / 2.0, (p.1 + 1.0) * IMAGE_HEIGHT / 2.0, scale, minLon, minLat)
        == (lon, lat)
  {
    var p := RenderUtils.TransformCoordinates(lon, lat, scale, minLon, minLat);
    var i := (p.0 + 1.0) * IMAGE_WIDTH / 2.0;
    var j := (p.1 + 1.0) * IMAGE_HEIGHT / 2.0;
    var q := GridCoordsToLonLat(i, j, scale, minLon, minLat);
    // Both q and (lon, lat) are mapped to p, and the forward map is injective.
    GridToGeoToGrid(i, j, scale, minLon, minLat);
    var kx := 2.0 * scale / DRAW_WIDTH;
    var ky := 2.0 * scale * VERT_STRETCH / DRAW_HEIGHT;
    assert (q.0 - minLon) * kx == (lon - minLon) * kx;
    assert (q.1 - minLat) * ky == (lat - minLat) * ky;
    CancelNonZero(q.0 - minLon, lon - minLon, kx);
    CancelNonZero(q.1 - minLat, lat - minLat, ky);
  }

  /** The geographic position of grid cell (i, j). It always uses the
      module constants SCALE_FACTOR, MIN_LON and MIN_LAT, never the
      Barnes smoothing scale. */
  function CellPosition(i: int, j: int): (pos: (real, real))
    ensures RenderUtils.TransformCoordinates(pos.0, pos.1, SCALE_FACTOR, MIN_LON, MIN_LAT)
      == (2.0 * (i as real) / IMAGE_WIDTH - 1.0, 2.0 * (j as real) / IMAGE_HEIGHT - 1.0)
  {
    GridToGeoToGrid(i as real, j as real, SCALE_FACTOR, MIN_LON, MIN_LAT);
    GridCoordsToLonLat(i as real, j as real, SCALE_FACTOR, MIN_LON, MIN_LAT)
  }

  // ---------------------------------------------------------------------
  // Weights

  /** `gaussian`: exp(-d^2 / (2 s^2)). Every weight is positive. */
  function Gaussian(exp: real -> real, distance: real, scale: real): (w: real)
    requires IsExp(exp) && scale != 0.0
    ensures w > 0.0
  {
    exp(-(distance * distance) / (2.0 * (scale * scale)))
  }

  /** A station at distance zero has weight one. */
  lemma GaussianAtZero(exp: real -> real, scale: real)
    requires IsExp(exp) && scale != 0.0
    ensures Gaussian(exp, 0.0, scale) == 1.0
  {
    ZeroOverTwiceProduct(scale, scale);
  }

  /** The Gaussian weight does not depend on the sign of the distance. */
  lemma GaussianSymmetric(exp: real -> real, distance: real, scale: real)
    requires IsExp(exp) && scale != 0.0
    ensures Gaussian(exp, -distance, scale) == Gaussian(exp, distance, scale)
  {
    assert (-distance) * (-distance) == distance * distance;
  }

  /** Square of the Euclidean distance from (lon, lat) to a station: never
      negative, and zero exactly at the station's own position. */
  function SquaredDistance(lon: real, lat: real, st: Station): (d: real)
    ensures d >= 0.0
    ensures d == 0.0 <==> lon == st.lon && lat == st.lat
  {
    SquareSign(lon - st.lon);
    SquareSign(lat - st.lat);
    Square(lon - st.lon) + Square(lat - st.lat)
  }

  /** The weight of a station seen from (lon, lat): the Gaussian of the
      Euclidean distance. Since the Gaussian squares its argument, it is
      written on the squared distance and equals the Gaussian of every d
      whose square is that distance. */
  function Weight(exp: real -> real, scale: real, lon: real, lat: real, st: Station): (w: real)
    requires IsExp(exp) && scale != 0.0
    ensures w > 0.0
    ensures forall d :: d * d == SquaredDistance(lon, lat, st) ==> w == Gaussian(exp, d, scale)
  {
    exp(-SquaredDistance(lon, lat, st) / (2.0 * (scale * scale)))
  }

  /** The station temperatures, in station order. */
  function Tairs(stations: seq<Station>): (ts: seq<real>)
    ensures |ts| == |stations|
    ensures forall k :: 0 <= k < |stations| ==> ts[k] == stations[k].tair
  {
    seq(|stations|, k requires 0 <= k < |stations| => stations[k].tair)
  }

  // ---------------------------------------------------------------------
  // Weighted means for any positive weighting of the stations

  /** Every station of the list has a positive weight. */
  ghost predicate PositiveWeights(w: Station -> real, stations: seq<Station>)
  {
    forall st :: st in stations ==> w(st) > 0.0
  }

  /** `weights * tair`, as a function of the station. */
  function WeightedTair(w: Station -> real): Station -> real
  {
    st => w(st) * st.tair
  }

  /** `weights * differences` for the current cell value g. */
  function WeightedDifference(w: Station -> real, g: real): Station -> real
  {
    st => w(st) * (st.tair - g)
  }

  /** sum(w * tair) / sum(w). It lies between the smallest and the largest
      station temperature. */
  function WeightedMean(w: Station -> real, stations: seq<Station>): (v: real)
    requires |stations| > 0 && PositiveWeights(w, stations)
    ensures SeqMin(Tairs(stations)) <= v <= SeqMax(Tairs(stations))
  {
    var ts := Tairs(stations);
    assert forall k :: 0 <= k < |stations| ==> ts[k] in ts;
    MeanWithin(w, stations, SeqMin(ts), SeqMax(ts));
    SumOf(WeightedTair(w), stations) / SumOf(w, stations)
  }

  /** If every station temperature lies in [lo, hi], so does the weighted
      sum divided by the total weight. */
  lemma MeanWithin(w: Station -> real, stations: seq<Station>, lo: real, hi: real)
    requires |stations| > 0 && PositiveWeights(w, stations)
    requires forall k :: 0 <= k < |stations| ==> lo <= stations[k].tair <= hi
    ensures SumOf(w, stations) > 0.0
    ensures lo <= SumOf(WeightedTair(w), stations) / SumOf(w, stations) <= hi
  {
    TermsWithin(w, stations, lo, hi);
    RatioAtLeast(w, WeightedTair(w), lo, stations);
    RatioAtMost(w, WeightedTair(w), hi, stations);
  }

  /** Termwise: lo * w <= w * tair <= hi * w for every station. */
  lemma TermsWithin(w: Station -> real, stations: seq<Station>, lo: real, hi: real)
    requires PositiveWeights(w, stations)
    requires forall k :: 0 <= k < |stations| ==> lo <= stations[k].tair <= hi
    ensures forall st :: st in stations ==> Scaled(lo, w)(st) <= WeightedTair(w)(st) <= Scaled(hi, w)(st)
  {
    forall st | st in stations
      ensures Scaled(lo, w)(st) <= WeightedTair(w)(st) <= Scaled(hi, w)(st)
    {
      var k :| 0 <= k < |stations| && stations[k] == st;
      MulMonotone(lo, st.tair, w(st));
      MulMonotone(st.tair, hi, w(st));
    }
  }

  /** sum(w * (tair - g)) == sum(w * tair) - g * sum(w). */
  lemma {:induction false} DifferenceSum(w: Station -> real, stations: seq<Station>, g: real)
    ensures SumOf(WeightedDifference(w, g), stations) == SumOf(WeightedTair(w), stations) - g * SumOf(w, stations)
  {
    if |stations| > 0 {
      var st := stations[0];
      DifferenceSum(w, stations[1..], g);
      Distribute(w(st), st.tair, g);
    }
  }

  /** Dividing by the total weight turns DifferenceSum into a shift of the mean. */
  lemma DifferenceMean(w: Station -> real, stations: seq<Station>, g: real)
    requires SumOf(w, stations) > 0.0
    ensures SumOf(WeightedDifference(w, g), stations) / SumOf(w, stations)
         == SumOf(WeightedTair(w), stations) / SumOf(w, stations) - g
  {
    DifferenceSum(w, stations, g);
    DivShift(SumOf(WeightedTair(w), stations), SumOf(w, stations), g);
  }

  /** sum(w * (tair - g)) / sum(w) is exactly the weighted mean minus g,
      whatever g is. */
  function MeanCorrection(w: Station -> real, stations: seq<Station>, g: real): (c: real)
    requires |stations| > 0 && PositiveWeights(w, stations)
    ensures c == WeightedMean(w, stations) - g
  {
    SumOfPositive(w, stations);
    DifferenceMean(w, stations, g);
    SumOf(WeightedDifference(w, g), stations) / SumOf(w, stations)
  }

  /** One station: its own value, whatever its weight. */
  lemma MeanOfOne(w: Station -> real, st: Station)
    requires w(st) > 0.0
    ensures PositiveWeights(w, [st])
    ensures WeightedMean(w, [st]) == st.tair
  {
    var x := w(st);
    assert SumOf(w, [st]) == x;
    assert SumOf(WeightedTair(w), [st]) == x * st.tair;
  }

  /** Two stations of equal weight: the arithmetic mean of their values. */
  lemma MeanOfEqualPair(w: Station -> real, a: Station, b: Station)
    requires w(a) > 0.0 && w(b) == w(a)
    ensures PositiveWeights(w, [a, b])
    ensures WeightedMean(w, [a, b]) == (a.tair + b.tair) / 2.0
  {
    var x := w(a);
    assert [a, b][1..] == [b];
    assert SumOf(w, [b]) == x;
    assert SumOf(WeightedTair(w), [b]) == x * b.tair;
    assert SumOf(w, [a, b]) == x + x;
    assert SumOf(WeightedTair(w), [a, b]) == x * a.tair + x * b.tair;
    assert (x * a.tair + x * b.tair) / (x + x) == (a.tair + b.tair) / 2.0 by {
      assert x * a.tair + x * b.tair == (x + x) * ((a.tair + b.tair) / 2.0);
    }
  }

  /** The weighted mean does not depend on the order of the stations. */
  lemma MeanOrderIrrelevant(w: Station -> real, a: seq<Station>, b: seq<Station>)
    requires |a| > 0 && PositiveWeights(w, a)
    requires multiset(a) == multiset(b)
    ensures |b| > 0 && PositiveWeights(w, b)
    ensures WeightedMean(w, a) == WeightedMean(w, b)
  {
    assert |b| == |multiset(b)| == |multiset(a)| == |a|;
    assert forall st :: st in b ==> st in multiset(a);
    SumOfPermutation(w, a, b);
    SumOfPermutation(WeightedTair(w), a, b);
  }

  // ---------------------------------------------------------------------
  // The Barnes weights

  /** The array `weights` at (lon, lat), as a function of the station. */
  function WeightOf(exp: real -> real, scale: real, lon: real, lat: real): (w: Station -> real)
    requires IsExp(exp) && scale != 0.0
    ensures forall st :: w(st) > 0.0
  {
    st => Weight(exp, scale, lon, lat, st)
  }

  /** The first-guess value at (lon, lat): the mean of the station
      temperatures under the Gaussian weights seen from there. */
  function WeightedAverage(exp: real -> real, scale: real, lon: real, lat: real, stations: seq<Station>): (v: real)
    requires IsExp(exp) && scale != 0.0 && |stations| > 0
    ensures SeqMin(Tairs(stations)) <= v <= SeqMax(Tairs(stations))
  {
    WeightedMean(WeightOf(exp, scale, lon, lat), stations)
  }

  /** Each first-guess value lies between the smallest and the largest
      station temperature. */
  lemma FirstGuessWithinStationRange(exp: real -> real, scale: real, lon: real, lat: real, stations: seq<Station>)
    requires IsExp(exp) && scale != 0.0 && |stations| > 0
    ensures SeqMin(Tairs(stations)) <= WeightedAverage(exp, scale, lon, lat, stations) <= SeqMax(Tairs(stations))
  {
  }

  /** The correction at (lon, lat) for the current value g. It is exactly
      the first-guess value minus g. */
  function Correction(exp: real -> real, scale: real, lon: real, lat: real, stations: seq<Station>, g: real): (c: real)
    requires IsExp(exp) && scale != 0.0 && |stations| > 0
    ensures c == WeightedAverage(exp, scale, lon, lat, stations) - g
  {
    MeanCorrection(WeightOf(exp, scale, lon, lat), stations, g)
  }

  /** With exactly one station every position gets that station's value. */
  lemma SingleStation(exp: real -> real, scale: real, lon: real, lat: real, st: Station)
    requires IsExp(exp) && scale != 0.0
    ensures WeightedAverage(exp, scale, lon, lat, [st]) == st.tair
  {
    MeanOfOne(WeightOf(exp, scale, lon, lat), st);
  }

  /** Two stations at the same distance from (lon, lat) carry the same
      weight, so the value there is their arithmetic mean. */
  lemma EquidistantPairGivesMean(exp: real -> real, scale: real, lon: real, lat: real, a: Station, b: Station)
    requires IsExp(exp) && scale != 0.0
    requires SquaredDistance(lon, lat, a) == SquaredDistance(lon, lat, b)
    ensures WeightedAverage(exp, scale, lon, lat, [a, b]) == (a.tair + b.tair) / 2.0
  {
    MeanOfEqualPair(WeightOf(exp, scale, lon, lat), a, b);
  }

  /** Interpolation does not depend on the order of the station list. */
  lemma StationOrderIrrelevant(exp: real -> real, scale: real, lon: real, lat: real, a: seq<Station>, b: seq<Station>)
    requires IsExp(exp) && scale != 0.0 && |a| > 0
    requires multiset(a) == multiset(b)
    ensures |b| > 0
    ensures WeightedAverage(exp, scale, lon, lat, a) == WeightedAverage(exp, scale, lon, lat, b)
  {
    MeanOrderIrrelevant(WeightOf(exp, scale, lon, lat), a, b);
  }

  // ---------------------------------------------------------------------
  // The grid

  /** The first-guess value of grid cell (i, j). */
  function CellAverage(exp: real -> real, scale: real, stations: seq<Station>, i: int, j: int): (v: real)
    requires IsExp(exp) && scale != 0.0 && |stations| > 0
    ensures SeqMin(Tairs(stations)) <= v <= SeqMax(Tairs(stations))
  {
    var (lon, lat) := CellPosition(i, j);
    WeightedAverage(exp, scale, lon, lat, stations)
  }

  /** The correction of grid cell (i, j) whose current value is g. */
  function CellCorrection(exp: real -> real, scale: real, stations: seq<Station>, i: int, j: int, g: real): (c: real)
    requires IsExp(exp) && scale != 0.0 && |stations| > 0
    ensures c == CellAverage(exp, scale, stations, i, j) - g
  {
    var (lon, lat) := CellPosition(i, j);
    Correction(exp, scale, lon, lat, stations, g)
  }

  /** The first-guess sweep: every cell is overwritten with the weighted
      average of the station temperatures at its position. */
  method FirstGuess(grid: array2<real>, stations: seq<Station>, scale: real, exp: real -> real)
    requires IsExp(exp) && scale != 0.0 && |stations| > 0
    modifies grid
    ensures forall a, b :: 0 <= a < grid.Length0 && 0 <= b < grid.Length1 ==>
      grid[a, b] == CellAverage(exp, scale, stations, a, b)
  {
    var i := 0;
    while i < grid.Length0
      invariant 0 <= i <= grid.Length0
      invariant forall a, b :: 0 <= a < i && 0 <= b < grid.Length1 ==>
        grid[a, b] == CellAverage(exp, scale, stations, a, b)
    {
      FirstGuessRow(grid, i, stations, scale, exp);
      i := i + 1;
    }
  }

  /** The inner loop of the first-guess sweep: row i receives its first
      guesses; no other row changes. */
  method FirstGuessRow(grid: array2<real>, i: int, stations: seq<Station>, scale: real, exp: real -> real)
    requires IsExp(exp) && scale != 0.0 && |stations| > 0
    requires 0 <= i < grid.Length0
    modifies grid
    ensures forall b :: 0 <= b < grid.Length1 ==> grid[i, b] == CellAverage(exp, scale, stations, i, b)
    ensures forall a, b :: 0 <= a < grid.Length0 && a != i && 0 <= b < grid.Length1 ==>
      grid[a, b] == old(grid[a, b])
  {
    var j := 0;
    while j < grid.Length1
      invariant 0 <= j <= grid.Length1
      invariant forall b :: 0 <= b < j ==> grid[i, b] == CellAverage(exp, scale, stations, i, b)
      invariant forall a, b :: 0 <= a < grid.Length0 && a != i && 0 <= b < grid.Length1 ==>
        grid[a, b] == old(grid[a, b])
    {
      var (lon, lat) := GridCoordsToLonLat(i as real, j as real, SCALE_FACTOR, MIN_LON, MIN_LAT);
      grid[i, j] := WeightedAverage(exp, scale, lon, lat, stations);
      j := j + 1;
    }
  }

  /** The sweep of one correction pass: a zeroed buffer of the grid's shape
      receives, cell by cell, the correction computed from the grid as it
      is; the grid itself is only read. */
  method ComputeCorrections(grid: array2<real>, stations: seq<Station>, scale: real, exp: real -> real)
    returns (corrections: array2<real>)
    requires IsExp(exp) && scale != 0.0 && |stations| > 0
    ensures fresh(corrections)
    ensures corrections.Length0 == grid.Length0 && corrections.Length1 == grid.Length1
    ensures forall a, b :: 0 <= a < grid.Length0 && 0 <= b < grid.Length1 ==>
      corrections[a, b] == CellCorrection(exp, scale, stations, a, b, grid[a, b])
  {
    corrections := new real[grid.Length0, grid.Length1]((_, _) => 0.0);
    var i := 0;
    while i < grid.Length0
      modifies corrections
      invariant 0 <= i <= grid.Length0
      invariant forall a, b :: 0 <= a < i && 0 <= b < grid.Length1 ==>
        corrections[a, b] == CellCorrection(exp, scale, stations, a, b, grid[a, b])
    {
      CorrectRow(grid, corrections, i, stations, scale, exp);
      i := i + 1;
    }
  }

  /** The inner loop of the correction sweep: row i of the buffer receives
      the corrections of row i of the grid; no other row changes. */
  method CorrectRow(grid: array2<real>, corrections: array2<real>, i: int, stations: seq<Station>, scale: real, exp: real -> real)
    requires IsExp(exp) && scale != 0.0 && |stations| > 0
    requires corrections != grid
    requires corrections.Length0 == grid.Length0 && corrections.Length1 == grid.Length1
    requires 0 <= i < grid.Length0
    modifies corrections
    ensures forall b :: 0 <= b < grid.Length1 ==>
      corrections[i, b] == CellCorrection(exp, scale, stations, i, b, grid[i, b])
    ensures forall a, b :: 0 <= a < grid.Length0 && a != i && 0 <= b < grid.Length1 ==>
      corrections[a, b] == old(corrections[a, b])
  {
    var j := 0;
    while j < grid.Length1
      invariant 0 <= j <= grid.Length1
      invariant forall b :: 0 <= b < j ==>
        corrections[i, b] == CellCorrection(exp, scale, stations, i, b, grid[i, b])
      invariant forall a, b :: 0 <= a < grid.Length0 && a != i && 0 <= b < grid.Length1 ==>
        corrections[a, b] == old(corrections[a, b])
    {
      var (lon, lat) := GridCoordsToLonLat(i as real, j as real, SCALE_FACTOR, MIN_LON, MIN_LAT);
      corrections[i, j] := Correction(exp, scale, lon, lat, stations, grid[i, j]);
      j := j + 1;
    }
  }

  /** `grid += corrections`: adds the buffer to the grid cell by cell. */
  method AddInPlace(grid: array2<real>, corrections: array2<real>)
    requires corrections != grid
    requires corrections.Length0 == grid.Length0 && corrections.Length1 == grid.Length1
    modifies grid
    ensures forall a, b :: 0 <= a < grid.Length0 && 0 <= b < grid.Length1 ==>
      grid[a, b] == old(grid[a, b]) + corrections[a, b]
  {
    var i := 0;
    while i < grid.Length0
      invariant 0 <= i <= grid.Length0
      invariant forall a, b :: 0 <= a < i && 0 <= b < grid.Length1 ==>
        grid[a, b] == old(grid[a, b]) + corrections[a, b]
      invariant forall a, b :: i <= a < grid.Length0 && 0 <= b < grid.Length1 ==>
        grid[a, b] == old(grid[a, b])
    {
      var j := 0;
      while j < grid.Length1
        invariant 0 <= j <= grid.Length1
        invariant forall a, b :: 0 <= a < i && 0 <= b < grid.Length1 ==>
          grid[a, b] == old(grid[a, b]) + corrections[a, b]
        invariant forall b :: 0 <= b < j ==> grid[i, b] == old(grid[i, b]) + corrections[i, b]
        invariant forall a, b :: i <= a < grid.Length0 && 0 <= b < grid.Length1 && (a > i || b >= j) ==>
          grid[a, b] == old(grid[a, b])
      {
        grid[i, j] := grid[i, j] + corrections[i, j];
        j := j + 1;
      }
      i := i + 1;
    }
  }

  /** One successive-correction pass. All corrections are computed from the
      pre-pass grid into a separate buffer, which is added to the grid only
      after the whole sweep. Every cell therefore ends at its first-guess
      value, so a pass applied to such a grid changes nothing. */
  method CorrectionPass(grid: array2<real>, stations: seq<Station>, scale: real, exp: real -> real)
    requires IsExp(exp) && scale != 0.0 && |stations| > 0
    modifies grid
    ensures forall a, b :: 0 <= a < grid.Length0 && 0 <= b < grid.Length1 ==>
      grid[a, b] == old(grid[a, b]) + CellCorrection(exp, scale, stations, a, b, old(grid[a, b]))
    ensures forall a, b :: 0 <= a < grid.Length0 && 0 <= b < grid.Length1 ==>
      grid[a, b] == CellAverage(exp, scale, stations, a, b)
    ensures (forall a, b :: 0 <= a < grid.Length0 && 0 <= b < grid.Length1 ==>
               old(grid[a, b]) == CellAverage(exp, scale, stations, a, b)) ==>
            forall a, b :: 0 <= a < grid.Length0 && 0 <= b < grid.Length1 ==> grid[a, b] == old(grid[a, b])
  {
    var corrections := ComputeCorrections(grid, stations, scale, exp);
    AddInPlace(grid, corrections);
  }

  /** `barnes_interpolation`: the first guess, then iterations - 1 correction
      passes (none when iterations <= 1). The same grid is updated in place
      and returned; every cell ends at the weighted average of the station
      temperatures at its position, which lies between the smallest and the
      largest station temperature. */
  method BarnesInterpolation(grid: array2<real>, stations: seq<Station>, scale: real, iterations: int, exp: real -> real)
    returns (result: array2<real>, ghost passes: nat)
    requires IsExp(exp) && scale != 0.0 && |stations| > 0
    modifies grid
    ensures result == grid
    ensures passes == if iterations > 1 then iterations - 1 else 0
    ensures forall a, b :: 0 <= a < grid.Length0 && 0 <= b < grid.Length1 ==>
      grid[a, b] == CellAverage(exp, scale, stations, a, b)
    ensures forall a, b :: 0 <= a < grid.Length0 && 0 <= b < grid.Length1 ==>
      SeqMin(Tairs(stations)) <= grid[a, b] <= SeqMax(Tairs(stations))
  {
    FirstGuess(grid, stations, scale, exp);
    passes := 0;
    var iteration := 0;
    while iteration < iterations - 1
      invariant iteration == passes
      invariant iterations > 1 ==> iteration <= iterations - 1
      invariant iterations <= 1 ==> iteration == 0
      invariant forall a, b :: 0 <= a < grid.Length0 && 0 <= b < grid.Length1 ==>
        grid[a, b] == CellAverage(exp, scale, stations, a, b)
    {
      CorrectionPass(grid, stations, scale, exp);
      iteration := iteration + 1;
      passes := passes + 1;
    }
    result := grid;
  }
}
