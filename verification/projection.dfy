/** The slippy-map tile scheme of Web Mercator, as the nested helpers `lat_lon_to_tile` and
    `tile_to_lat_lon` of the OpenStreetMap map generator compute it. Floats are modelled as
    reals. Only the longitude half is exact arithmetic; the latitude half goes through
    `asinh(tan(...))`, so the model takes the normalised Mercator ordinate as an input. */
module Projection {

  /** 2^zoom: the number of tiles along each axis at `zoom`. */
  function Pow2(zoom: nat): (n: nat)
    ensures n >= 1
  {
    if zoom == 0 then 1 else 2 * Pow2(zoom - 1)
  }

  /** 2^zoom as a real: the float `n = 2.0 ** zoom` of the source. */
  function TileCount(zoom: nat): (n: real)
    ensures n >= 1.0
  {
    Pow2(zoom) as real
  }

  /** Python's `int()` applied to a float: truncation toward zero, which is NOT the floor
      for negative arguments. */
  function Trunc(r: real): int
  {
    if r >= 0.0 then r.Floor else -((-r).Floor)
  }

  /** The tile index along one axis of a point whose position across the world, as a fraction
      from the western (or northern) edge, is `frac`. */
  function TileIndex(frac: real, zoom: nat): int
  {
    Trunc(frac * TileCount(zoom))
  }

  /** Tile column of longitude `lon` at `zoom`: `int((lon + 180) / 360 * 2^zoom)`. */
  function TileX(lon: real, zoom: nat): int
  {
    TileIndex((lon + 180.0) / 360.0, zoom)
  }

  /** Tile row of a latitude whose normalised Mercator ordinate `(1 - asinh(tan(lat)) / pi) / 2`
      is `mercY` (0 at the northern limit, 1 at the southern limit). */
  function TileY(mercY: real, zoom: nat): int
  {
    TileIndex(mercY, zoom)
  }

  /** Longitude of the western edge of tile column `x`: `x / 2^zoom * 360 - 180`. */
  function TileLon(x: int, zoom: nat): real
  {
    x as real / TileCount(zoom) * 360.0 - 180.0
  }

  /** Longitude width of one tile column at `zoom`. */
  function TileSpan(zoom: nat): (span: real)
    ensures span > 0.0
  {
    360.0 / TileCount(zoom)
  }

  // ---------------------------------------------------------------------------------------
  // Arithmetic bridges between tile units and degrees.

  /** A tile corner, measured from -180, is its index times the tile span. */
  lemma CornerInSpans(x: int, zoom: nat)
    ensures TileLon(x, zoom) + 180.0 == x as real * TileSpan(zoom)
  {
    var n := TileCount(zoom);
    assert TileSpan(zoom) * n == 360.0;
  }

  /** The scaled position of `lon` in tile units, times the tile span, is back in degrees. */
  lemma PositionTimesSpan(lon: real, zoom: nat)
    ensures (lon + 180.0) / 360.0 * TileCount(zoom) * TileSpan(zoom) == lon + 180.0
  {
    var n := TileCount(zoom);
    assert TileSpan(zoom) * n == 360.0;
  }

  /** Scaling both sides of a comparison by the same positive factor does not change it. */
  lemma Rescale(a: real, b: real, k: real, ka: real, kb: real)
    requires k > 0.0 && a * k == ka && b * k == kb
    ensures a < b <==> ka < kb
    ensures a <= b <==> ka <= kb
  {
    if a < b { assert (b - a) * k > 0.0; }
    if b < a { assert (a - b) * k > 0.0; }
  }

  /** Truncation lands in [0, m) exactly for arguments strictly between -1 and m. */
  lemma TruncRange(r: real, m: int)
    requires m >= 1
    ensures 0 <= Trunc(r) < m <==> -1.0 < r < m as real
  {
  }

  /** For a non-negative argument truncation gives the one integer bracketing it. */
  lemma FloorBracket(r: real, x: int)
    requires r >= 0.0
    ensures x == Trunc(r) <==> x as real <= r < (x + 1) as real
  {
  }

  // ---------------------------------------------------------------------------------------
  // Properties of the longitude projection.

  /** A point inside the world (fraction in [0, 1)) lands on a valid tile index. */
  lemma TileIndexInRange(frac: real, zoom: nat)
    requires 0.0 <= frac < 1.0
    ensures 0 <= TileIndex(frac, zoom) < Pow2(zoom)
  {
    var n := TileCount(zoom);
    assert frac * n < n by { assert (1.0 - frac) * n > 0.0; }
  }

  /** Every longitude in [-180, 180) has a tile column in [0, 2^zoom). */
  lemma TileXInRange(lon: real, zoom: nat)
    requires -180.0 <= lon < 180.0
    ensures 0 <= TileX(lon, zoom) < Pow2(zoom)
  {
    TileIndexInRange((lon + 180.0) / 360.0, zoom);
  }

  /** Exactly which longitudes get an in-range column. Because `int()` truncates toward zero,
      longitudes up to one tile west of -180 are put in column 0 rather than column -1; and
      180 itself is out of range. */
  lemma TileXInRangeIff(lon: real, zoom: nat)
    ensures 0 <= TileX(lon, zoom) < Pow2(zoom) <==> -180.0 - TileSpan(zoom) < lon < 180.0
  {
    ColumnInRangeScaled(lon, zoom);
    ScaledInRangeDegrees(lon, zoom);
  }

  /** In tile units: the column is in range iff the scaled position is in (-1, 2^zoom). */
  lemma ColumnInRangeScaled(lon: real, zoom: nat)
    ensures 0 <= TileX(lon, zoom) < Pow2(zoom)
        <==> -1.0 < (lon + 180.0) / 360.0 * TileCount(zoom) < TileCount(zoom)
  {
    var r := (lon + 180.0) / 360.0 * TileCount(zoom);
    TileXIsTrunc(lon, zoom);
    TruncRange(r, Pow2(zoom));
    assert TileCount(zoom) == Pow2(zoom) as real;
  }

  /** The same interval in degrees. */
  lemma ScaledInRangeDegrees(lon: real, zoom: nat)
    ensures -1.0 < (lon + 180.0) / 360.0 * TileCount(zoom) < TileCount(zoom)
        <==> -180.0 - TileSpan(zoom) < lon < 180.0
  {
    PositionTimesSpan(lon, zoom);
    CountTimesSpan(zoom);
    OpenIntervalRescale((lon + 180.0) / 360.0 * TileCount(zoom), TileSpan(zoom),
                        TileCount(zoom), lon + 180.0);
  }

  /** East of -180 the scaled position is non-negative, so truncation is the floor there. */
  lemma ScaledPositionNonNegative(lon: real, zoom: nat)
    requires -180.0 <= lon
    ensures (lon + 180.0) / 360.0 * TileCount(zoom) >= 0.0
  {
    var f := (lon + 180.0) / 360.0;
    assert f >= 0.0;
    assert f * TileCount(zoom) >= f * 1.0;
  }

  /** The column is the truncated scaled position. */
  lemma TileXIsTrunc(lon: real, zoom: nat)
    ensures TileX(lon, zoom) == Trunc((lon + 180.0) / 360.0 * TileCount(zoom))
  {
  }

  /** The tile count times the tile span is the whole circle. */
  lemma CountTimesSpan(zoom: nat)
    ensures TileCount(zoom) * TileSpan(zoom) == 360.0
  {
  }

  /** `-1 < r < m` in tile units is `-span < d < 360` in degrees, when `d = r * span`. */
  lemma OpenIntervalRescale(r: real, s: real, m: real, d: real)
    requires s > 0.0 && r * s == d && m * s == 360.0
    ensures -1.0 < r < m <==> -s < d < 360.0
  {
    Rescale(-1.0, r, s, -s, d);
    Rescale(r, m, s, d, 360.0);
  }

  /** The antimeridian itself, lon = 180, is projected to column 2^zoom: one past the last. */
  lemma TileXAtAntimeridian(zoom: nat)
    ensures TileX(180.0, zoom) == Pow2(zoom)
  {
    var n := TileCount(zoom);
    assert (180.0 + 180.0) / 360.0 * n == n;
    assert n.Floor == Pow2(zoom);
  }

  /** Truncation toward zero is monotone. */
  lemma TruncMonotone(a: real, b: real)
    requires a <= b
    ensures Trunc(a) <= Trunc(b)
  {
    if a >= 0.0 {
      assert a.Floor <= b.Floor;
    } else if b < 0.0 {
      assert (-b).Floor <= (-a).Floor;
    }
  }

  /** The tile column never decreases as the longitude moves east. */
  lemma TileXMonotone(lon1: real, lon2: real, zoom: nat)
    requires lon1 <= lon2
    ensures TileX(lon1, zoom) <= TileX(lon2, zoom)
  {
    var f1, f2 := (lon1 + 180.0) / 360.0, (lon2 + 180.0) / 360.0;
    assert f1 <= f2;
    TileIndexMonotone(f1, f2, zoom);
  }

  /** The tile row never decreases as the Mercator ordinate grows, that is, as the latitude
      moves south. */
  lemma TileYMonotone(mercY1: real, mercY2: real, zoom: nat)
    requires mercY1 <= mercY2
    ensures TileY(mercY1, zoom) <= TileY(mercY2, zoom)
  {
    TileIndexMonotone(mercY1, mercY2, zoom);
  }

  /** The tile index along either axis never decreases with the position. */
  lemma TileIndexMonotone(f1: real, f2: real, zoom: nat)
    requires f1 <= f2
    ensures TileIndex(f1, zoom) <= TileIndex(f2, zoom)
  {
    var n := TileCount(zoom);
    ScaleMonotone(f1, f2, n);
    TruncMonotone(f1 * n, f2 * n);
  }

  /** Scaling by a positive factor keeps a non-strict order. */
  lemma ScaleMonotone(a: real, b: real, k: real)
    requires a <= b && k > 0.0
    ensures a * k <= b * k
  {
    assert (b - a) * k >= 0.0;
  }

  /** Tile-corner longitudes strictly increase with the column index. */
  lemma TileLonStrictlyIncreasing(x1: int, x2: int, zoom: nat)
    requires x1 < x2
    ensures TileLon(x1, zoom) < TileLon(x2, zoom)
  {
    CornerInSpans(x1, zoom);
    CornerInSpans(x2, zoom);
    Rescale(x1 as real, x2 as real, TileSpan(zoom), TileLon(x1, zoom) + 180.0, TileLon(x2, zoom) + 180.0);
  }

  /** Consecutive tile corners are exactly one tile span apart. */
  lemma TileLonStep(x: int, zoom: nat)
    ensures TileLon(x + 1, zoom) == TileLon(x, zoom) + TileSpan(zoom)
  {
    CornerInSpans(x, zoom);
    CornerInSpans(x + 1, zoom);
  }

  /** Round trip from a longitude to its tile and back: for any longitude east of -180 the
      projected column `x` is the one whose western edge is at or west of `lon` and whose eastern
      edge is strictly east of it. Conversely that bracket determines the column. */
  lemma TileLonBrackets(lon: real, x: int, zoom: nat)
    requires -180.0 <= lon
    ensures x == TileX(lon, zoom) <==> TileLon(x, zoom) <= lon < TileLon(x + 1, zoom)
  {
    var s := TileSpan(zoom);
    var r := (lon + 180.0) / 360.0 * TileCount(zoom);
    PositionTimesSpan(lon, zoom);
    CornerInSpans(x, zoom);
    CornerInSpans(x + 1, zoom);
    Rescale(0.0, r, s, 0.0, lon + 180.0);
    FloorBracket(r, x);
    Rescale(x as real, r, s, TileLon(x, zoom) + 180.0, lon + 180.0);
    Rescale(r, (x + 1) as real, s, lon + 180.0, TileLon(x + 1, zoom) + 180.0);
  }

  /** A tile's western-edge longitude projects back onto that very tile, for every column,
      including the out-of-range ones the grid asks for at the world's edges. */
  lemma TileXOfTileLon(x: int, zoom: nat)
    ensures TileX(TileLon(x, zoom), zoom) == x
  {
    var n := TileCount(zoom);
    var lon := TileLon(x, zoom);
    assert (lon + 180.0) / 360.0 * n == x as real by {
      assert lon + 180.0 == x as real / n * 360.0;
      assert x as real / n * 360.0 / 360.0 * n == x as real;
    }
  }

  /** Tokyo (lon 139.6503) at zoom 10, the centre of the Tokyo maps, lies in column 909. */
  lemma TokyoColumnAtZoom10()
    ensures TileX(139.6503, 10) == 909
  {
    assert Pow2(10) == 1024 by {
      assert Pow2(0) == 1;
      assert Pow2(5) == 32;
    }
    var r := (139.6503 + 180.0) / 360.0 * 1024.0;
    assert 909.0 <= r < 910.0;
  }
}
