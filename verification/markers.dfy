/** Marker placement and drawing. The routine places each marker by interpolating linearly
    between tile-corner coordinates, then draws a circle at that point and, when the marker has a
    label, a text box 20 units above it. Markers are drawn in list order.

    The x interpolation as written maps the longitudes from the western edge of tile `tileX - 1`
    to the western edge of tile `tileX + 1` (two tiles, 512 canvas pixels) onto the whole output
    width, and ignores where the crop starts. `DisplayedX` is the column of the cropped image
    that actually shows a longitude; `SourceMarkerXMisplaced` shows the two disagree by at least
    128 pixels at the centre tile's western edge. */
module Markers {
  import opened Wrappers
  import opened Projection
  import opened Fetch
  import opened Canvas

  /** A caller-supplied marker: the dictionary keys `lat` and `lon`, and `caption` for the
      optional `label` key. */
  datatype Marker = Marker(lat: real, lon: real, caption: Option<string>)

  /** What is drawn for markers: a radius-10 red circle centred at (x, y), or a label box
      anchored at (x, y). Coordinates are the axes' data coordinates, in which `imshow` puts the
      centre of pixel column j of the displayed image at x = j. */
  datatype Mark = Circle(x: real, y: real) | Label(x: real, y: real, text: string)

  /** How far above the marker its label is anchored. */
  const LabelRise: real := 20.0

  // ---------------------------------------------------------------------------------------
  // Placement as written.

  /** The longitudes the interpolation runs between: the western edges of tiles
      `tileX - 1` and `tileX + 1`. They are two tile spans apart. */
  lemma InterpolationSpan(tileX: int, zoom: nat)
    ensures TileLon(tileX + 1, zoom) - TileLon(tileX - 1, zoom) == 2.0 * TileSpan(zoom)
  {
    TileLonStep(tileX - 1, zoom);
    TileLonStep(tileX, zoom);
  }

  /** `x_pos = (marker_lon - left_lon) / (right_lon - left_lon) * width`. */
  function SourceMarkerX(lon: real, tileX: int, zoom: nat, width: int): real
  {
    var leftLon := TileLon(tileX - 1, zoom);
    var rightLon := TileLon(tileX + 1, zoom);
    InterpolationSpan(tileX, zoom);
    (lon - leftLon) / (rightLon - leftLon) * width as real
  }

  /** The interpolation sends `left_lon` to 0 and `right_lon` to `width`, and is strictly
      increasing in the longitude for a positive width. */
  lemma SourceMarkerXShape(lon1: real, lon2: real, tileX: int, zoom: nat, width: int)
    ensures SourceMarkerX(TileLon(tileX - 1, zoom), tileX, zoom, width) == 0.0
    ensures SourceMarkerX(TileLon(tileX + 1, zoom), tileX, zoom, width) == width as real
    ensures width > 0 && lon1 < lon2 ==>
      SourceMarkerX(lon1, tileX, zoom, width) < SourceMarkerX(lon2, tileX, zoom, width)
  {
    InterpolationSpan(tileX, zoom);
    var d := TileLon(tileX + 1, zoom) - TileLon(tileX - 1, zoom);
    var w := width as real;
    if width > 0 && lon1 < lon2 {
      var leftLon := TileLon(tileX - 1, zoom);
      var a, b := (lon1 - leftLon) / d, (lon2 - leftLon) / d;
      assert a < b by {
        assert a * d == lon1 - leftLon;
        assert b * d == lon2 - leftLon;
        Rescale(a, b, d, lon1 - leftLon, lon2 - leftLon);
      }
      assert a * w < b * w by { assert (b - a) * w > 0.0; }
    }
  }

  /** `y_pos = (top_lat - marker_lat) / (top_lat - bottom_lat) * height`, where the edge
      latitudes come from the inverse Mercator formula and are taken as given. */
  function SourceMarkerY(lat: real, topLat: real, bottomLat: real, height: int): real
    requires topLat != bottomLat
  {
    (topLat - lat) / (topLat - bottomLat) * height as real
  }

  /** With north above south, the y position runs from 0 at `top_lat` to `height` at
      `bottom_lat` and strictly decreases as the latitude increases. */
  lemma SourceMarkerYShape(lat1: real, lat2: real, topLat: real, bottomLat: real, height: int)
    requires topLat > bottomLat
    ensures SourceMarkerY(topLat, topLat, bottomLat, height) == 0.0
    ensures SourceMarkerY(bottomLat, topLat, bottomLat, height) == height as real
    ensures height > 0 && lat1 < lat2 ==>
      SourceMarkerY(lat1, topLat, bottomLat, height) > SourceMarkerY(lat2, topLat, bottomLat, height)
  {
    var d := topLat - bottomLat;
    var h := height as real;
    if height > 0 && lat1 < lat2 {
      var a, b := (topLat - lat1) / d, (topLat - lat2) / d;
      assert b < a by {
        assert a * d == topLat - lat1;
        assert b * d == topLat - lat2;
        Rescale(b, a, d, topLat - lat2, topLat - lat1);
      }
      assert b * h < a * h by { assert (a - b) * h > 0.0; }
    }
  }

  // ---------------------------------------------------------------------------------------
  // Where a longitude is actually shown.

  /** The canvas column showing longitude `lon`: its position in tile units, measured from the
      western edge of the grid's first column `tileX - 1`, times the tile size. */
  function CanvasX(lon: real, tileX: int, zoom: nat): real
  {
    ((lon + 180.0) / 360.0 * TileCount(zoom) - (tileX - 1) as real) * TileSize as real
  }

  /** The position in the cropped image showing `lon`, in pixel-edge coordinates: pixel
      column j covers [j, j + 1), so tile edges fall on whole numbers. In the data coordinates a
      `Circle` takes, where the centre of column j is at j, the same point is half a pixel to the
      left, at `DisplayedX(...) - 0.5`. */
  function DisplayedX(lon: real, tileX: int, zoom: nat, crop: Rect): real
  {
    CanvasX(lon, tileX, zoom) - crop.left as real
  }

  /** A point a fraction `t` of a tile span east of the corner of column `x` is at `x + t` in
      tile units. */
  lemma ScaledNearCorner(x: int, t: real, zoom: nat)
    ensures (TileLon(x, zoom) + t * TileSpan(zoom) + 180.0) / 360.0 * TileCount(zoom) == x as real + t
  {
    CornerInSpans(x, zoom);
    CountTimesSpan(zoom);
    var s, n := TileSpan(zoom), TileCount(zoom);
    assert TileLon(x, zoom) + t * s + 180.0 == (x as real + t) * s;
    assert (x as real + t) * s / 360.0 * n == (x as real + t) * (s * n) / 360.0;
  }

  /** In canvas pixels: a fraction `t` of a tile east of the centre tile's western edge. */
  lemma CanvasXNearCorner(tileX: int, t: real, zoom: nat)
    ensures CanvasX(TileLon(tileX, zoom) + t * TileSpan(zoom), tileX, zoom) == (1.0 + t) * TileSize as real
  {
    ScaledNearCorner(tileX, t, zoom);
  }

  /** A longitude east of -180 whose tile is grid column `k` is shown inside the canvas columns
      where that cell's tile was pasted. */
  lemma CanvasXInPastedCell(lon: real, tileX: int, zoom: nat, k: int)
    requires -180.0 <= lon
    requires 0 <= k < 3 && TileX(lon, zoom) == tileX - 1 + k
    ensures (k * TileSize) as real <= CanvasX(lon, tileX, zoom) < ((k + 1) * TileSize) as real
  {
    var r := (lon + 180.0) / 360.0 * TileCount(zoom);
    ScaledPositionNonNegative(lon, zoom);
    TileXIsTrunc(lon, zoom);
    FloorBracket(r, tileX - 1 + k);
    assert k as real <= r - (tileX - 1) as real < (k + 1) as real;
  }

  /** A marker at the middle of the centre tile, the centre of the canvas, is shown at
      `width // 2`: the middle of the output to within half a pixel. */
  lemma DisplayedXAtCentre(tileX: int, zoom: nat, width: int, height: int)
    requires 0 <= width <= CanvasSize
    ensures DisplayedX(TileLon(tileX, zoom) + 0.5 * TileSpan(zoom), tileX, zoom, CropBox(width, height))
            == (width / 2) as real
  {
    CanvasXNearCorner(tileX, 0.5, zoom);
    CropCentred(width, height);
  }

  /** The interpolation as written puts a marker on the centre tile's western edge at least
      128 pixels to the right of the column that shows that longitude, for every non-negative
      width. At the default width 800 it is drawn at x = 400 while the longitude is shown at
      x = 256. */
  lemma SourceMarkerXMisplaced(tileX: int, zoom: nat, width: int, height: int)
    requires width >= 0
    ensures SourceMarkerX(TileLon(tileX, zoom), tileX, zoom, width)
            >= DisplayedX(TileLon(tileX, zoom), tileX, zoom, CropBox(width, height)) + 128.0
  {
    TileLonStep(tileX - 1, zoom);
    SourceMarkerHalfway(tileX, zoom, width);
    CanvasXNearCorner(tileX, 0.0, zoom);
    assert TileLon(tileX, zoom) + 0.0 * TileSpan(zoom) == TileLon(tileX, zoom);
    if width > CanvasSize {
      CropTruncatesWide(width, height);
    } else {
      CropCentred(width, height);
    }
  }

  /** The as-written interpolation puts the centre tile's western edge halfway across. */
  lemma SourceMarkerHalfway(tileX: int, zoom: nat, width: int)
    ensures SourceMarkerX(TileLon(tileX, zoom), tileX, zoom, width) == width as real / 2.0
  {
    InterpolationSpan(tileX, zoom);
    TileLonStep(tileX - 1, zoom);
    var s := TileSpan(zoom);
    assert TileLon(tileX, zoom) - TileLon(tileX - 1, zoom) == s;
    assert s / (2.0 * s) == 0.5;
  }

  // ---------------------------------------------------------------------------------------
  // Drawing order.

  /** What one marker draws at (x, y): its circle, then its label if the `label` key exists
      (an empty label is still drawn). */
  function MarkerMarks(m: Marker, x: real, y: real): seq<Mark>
  {
    [Circle(x, y)] + (match m.caption case Some(text) => [Label(x, y - LabelRise, text)] case None => [])
  }

  /** Everything drawn for `markers`, in the order drawn, placing each with `xOf` and `yOf`. */
  function DrawMarkers(markers: seq<Marker>, xOf: real -> real, yOf: real -> real): seq<Mark>
    decreases |markers|
  {
    if |markers| == 0 then []
    else
      var m := markers[|markers| - 1];
      DrawMarkers(markers[..|markers| - 1], xOf, yOf) + MarkerMarks(m, xOf(m.lon), yOf(m.lat))
  }

  /** Number of markers carrying a label. */
  function LabelCount(markers: seq<Marker>): nat
    decreases |markers|
  {
    if |markers| == 0 then 0
    else LabelCount(markers[..|markers| - 1]) + (if markers[|markers| - 1].caption.Some? then 1 else 0)
  }

  /** Drawing a concatenation draws the first list, then the second. */
  lemma {:induction false} DrawMarkersAppend(a: seq<Marker>, b: seq<Marker>, xOf: real -> real, yOf: real -> real)
    ensures DrawMarkers(a + b, xOf, yOf) == DrawMarkers(a, xOf, yOf) + DrawMarkers(b, xOf, yOf)
    decreases |b|
  {
    if |b| == 0 {
      assert a + b == a;
    } else {
      var m := b[|b| - 1];
      assert (a + b)[..|a + b| - 1] == a + b[..|b| - 1];
      DrawMarkersAppend(a, b[..|b| - 1], xOf, yOf);
    }
  }

  /** The marks of marker `i` come after those of every earlier marker and before those of
      every later one: drawing follows list order. */
  lemma DrawMarkersInOrder(markers: seq<Marker>, i: int, xOf: real -> real, yOf: real -> real)
    requires 0 <= i < |markers|
    ensures DrawMarkers(markers, xOf, yOf)
         == DrawMarkers(markers[..i], xOf, yOf)
            + MarkerMarks(markers[i], xOf(markers[i].lon), yOf(markers[i].lat))
            + DrawMarkers(markers[i + 1..], xOf, yOf)
  {
    var m, before, after := markers[i], markers[..i], markers[i + 1..];
    SplitAround(markers, i);
    DrawMarkersAppend(before, [m] + after, xOf, yOf);
    DrawMarkersCons(m, after, xOf, yOf);
    ConcatAssoc(DrawMarkers(before, xOf, yOf), MarkerMarks(m, xOf(m.lon), yOf(m.lat)), DrawMarkers(after, xOf, yOf));
  }

  /** Drawing a list headed by `m` draws `m` first. */
  lemma DrawMarkersCons(m: Marker, rest: seq<Marker>, xOf: real -> real, yOf: real -> real)
    ensures DrawMarkers([m] + rest, xOf, yOf) == MarkerMarks(m, xOf(m.lon), yOf(m.lat)) + DrawMarkers(rest, xOf, yOf)
  {
    DrawMarkersAppend([m], rest, xOf, yOf);
    DrawOneMarker(m, xOf, yOf);
  }

  lemma SplitAround<T>(s: seq<T>, i: int)
    requires 0 <= i < |s|
    ensures s == s[..i] + ([s[i]] + s[i + 1..])
  {
  }

  lemma ConcatAssoc<T>(a: seq<T>, b: seq<T>, c: seq<T>)
    ensures a + (b + c) == a + b + c
  {
  }

  /** Every marker's circle is drawn at its position, and its label, when it has one, 20 units
      above it. */
  lemma MarkerMarksIn(markers: seq<Marker>, i: int, xOf: real -> real, yOf: real -> real)
    requires 0 <= i < |markers|
    ensures var mk := markers[i];
      && Circle(xOf(mk.lon), yOf(mk.lat)) in DrawMarkers(markers, xOf, yOf)
      && (mk.caption.Some? ==>
            Label(xOf(mk.lon), yOf(mk.lat) - LabelRise, mk.caption.value) in DrawMarkers(markers, xOf, yOf))
  {
    var mk := markers[i];
    var x, y := xOf(mk.lon), yOf(mk.lat);
    var own := MarkerMarks(mk, x, y);
    var before, after := DrawMarkers(markers[..i], xOf, yOf), DrawMarkers(markers[i + 1..], xOf, yOf);
    DrawMarkersInOrder(markers, i, xOf, yOf);
    MarkerMarksParts(mk, x, y);
    ElementInMiddle(before, own, after, 0);
    if mk.caption.Some? {
      ElementInMiddle(before, own, after, 1);
    }
  }

  /** Every marker of the list has its circle, and its label when it has one, among the marks. */
  lemma DrawMarkersDrawsEvery(markers: seq<Marker>, xOf: real -> real, yOf: real -> real)
    ensures forall i :: 0 <= i < |markers| ==>
      && Circle(xOf(markers[i].lon), yOf(markers[i].lat)) in DrawMarkers(markers, xOf, yOf)
      && (markers[i].caption.Some? ==>
            Label(xOf(markers[i].lon), yOf(markers[i].lat) - LabelRise, markers[i].caption.value)
              in DrawMarkers(markers, xOf, yOf))
  {
    forall i | 0 <= i < |markers|
      ensures Circle(xOf(markers[i].lon), yOf(markers[i].lat)) in DrawMarkers(markers, xOf, yOf)
      ensures markers[i].caption.Some? ==>
        Label(xOf(markers[i].lon), yOf(markers[i].lat) - LabelRise, markers[i].caption.value)
          in DrawMarkers(markers, xOf, yOf)
    {
      MarkerMarksIn(markers, i, xOf, yOf);
    }
  }

  /** The circle comes first, and the label, if any, second. */
  lemma MarkerMarksParts(m: Marker, x: real, y: real)
    ensures |MarkerMarks(m, x, y)| >= 1 && MarkerMarks(m, x, y)[0] == Circle(x, y)
    ensures m.caption.Some? ==>
      |MarkerMarks(m, x, y)| == 2 && MarkerMarks(m, x, y)[1] == Label(x, y - LabelRise, m.caption.value)
  {
  }

  lemma ElementInMiddle<T>(a: seq<T>, b: seq<T>, c: seq<T>, k: int)
    requires 0 <= k < |b|
    ensures b[k] in a + b + c
  {
    assert (a + b + c)[|a| + k] == b[k];
  }

  /** A one-marker list draws that marker's marks. */
  lemma DrawOneMarker(m: Marker, xOf: real -> real, yOf: real -> real)
    ensures DrawMarkers([m], xOf, yOf) == MarkerMarks(m, xOf(m.lon), yOf(m.lat))
  {
    assert [m][..0] == [];
  }

  /** One circle per marker and one label per labelled marker, nothing else. */
  lemma {:induction false} DrawMarkersCount(markers: seq<Marker>, xOf: real -> real, yOf: real -> real)
    ensures |DrawMarkers(markers, xOf, yOf)| == |markers| + LabelCount(markers)
    decreases |markers|
  {
    if |markers| > 0 {
      DrawMarkersCount(markers[..|markers| - 1], xOf, yOf);
    }
  }

  /** A label text is drawn for a marker exactly when the marker has that label. */
  lemma LabelDrawnIffPresent(m: Marker, x: real, y: real, text: string)
    ensures Label(x, y - LabelRise, text) in MarkerMarks(m, x, y) <==> m.caption == Some(text)
  {
    var marks := MarkerMarks(m, x, y);
    if Label(x, y - LabelRise, text) in marks {
      var k :| 0 <= k < |marks| && marks[k] == Label(x, y - LabelRise, text);
      assert k == 1;
    }
  }
}
