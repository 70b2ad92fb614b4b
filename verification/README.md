# Static OpenStreetMap map rendering, modelled in Dafny

This project models `create_static_map_image` from `generate_osm_maps.py`. The routine renders a
static map image around a latitude/longitude centre from OpenStreetMap raster tiles:

1. It projects the centre onto a Web-Mercator tile (`lat_lon_to_tile`).
2. It requests the 3×3 neighbourhood of tiles around that tile.
3. It resolves each request with a fallback policy. A 200 response whose body `Image.open`
   identifies gives that image. Any other status, and any exception from the request or from
   `Image.open`, gives a blank 256×256 `#f0f0f0` tile.
4. It pastes the nine tiles into a 768×768 canvas.
5. It crops a box centred on the canvas, clamping each edge into the canvas.
6. It draws a circle, and optionally a label, for each marker.

Modules, following the routine's steps:

- `Wrappers`: `Option`.
- `Projection`: the tile scheme.
  - `TileX` is the longitude to tile column step of `lat_lon_to_tile`.
  - `TileY` is the latitude step, taking the normalised Mercator ordinate as input.
  - `TileLon` is the longitude half of `tile_to_lat_lon`.
  - Python's `int()` truncates toward zero, and is modelled as such (`Trunc`), not as a floor.
  - Floats are modelled as reals.
- `Grid`: the requested 3×3 neighbourhood, built the way the `for dy` / `for dx` loops build it.
- `TileUrl`: the request URL. Its partner is a parser that reads a URL back as the tile it names.
- `Fetch`: the fallback policy.
  - A request is reduced to its outcome: a response with a status code and body, or an exception.
  - `Image.open` is a function parameter (`Decoder`). It stands for the identification step
    only: the size a body's header declares, or None when identification raises. `Image.open`
    is lazy, and the pixel data is decoded later, when the tile is pasted.
- `Canvas`: the pastes and the crop box.
  - Pixels are described by which paste they come from. PIL's `paste` overwrites, so this is the
    last paste covering the pixel.
  - A pixel no paste covers keeps the black background.
- `Markers`: marker placement and the drawing order.
  - `SourceMarkerX` is the routine's own interpolation.
  - `DisplayedX` is the column of the cropped image that actually shows a longitude (see Findings).
- `StaticMap`: the whole routine as one method. It places markers where the routine's own
  interpolation puts them.

Nothing wraps longitudes, clamps latitudes, grows the grid or fails when tiles are missing:

- Columns west of 0 are requested literally as `-1` (see `TileUrl.WestOfColumnZeroUrl`).
- Columns at `2^zoom` and beyond are requested literally too (see `Projection.TileXAtAntimeridian`).
- The grid is always 3×3.
- The output is silently cut to 768 pixels per side.
- A request that raises, a status other than 200, and a body whose header `Image.open` cannot
  identify each become a blank tile.

## Model

| member | source | states |
|---|---|---|
| Projection.TileCount | generate_osm_maps.py:30 | defines the float `n = 2.0 ** zoom`, the number of tiles per axis, which is at least 1 |
| Projection.Trunc | generate_osm_maps.py:31 | defines Python's `int()` on a float: truncation toward zero |
| Projection.TileX | generate_osm_maps.py:31 | defines the tile column `int((lon + 180) / 360 * 2^zoom)` |
| Projection.TileY | generate_osm_maps.py:32 | defines the tile row `int(mercY * 2^zoom)`, where mercY is the normalised Mercator ordinate `(1 - asinh(tan(lat)) / pi) / 2` |
| Projection.TileLon | generate_osm_maps.py:37 | defines the western-edge longitude `x / 2^zoom * 360 - 180` of column x |
| Projection.TileIndexInRange | generate_osm_maps.py:31-32 | a position inside the world, as a fraction in [0, 1), truncates to a tile index in [0, 2^zoom) |
| Projection.TileXInRange | generate_osm_maps.py:28-31 | every longitude in [-180, 180) gets a tile column in [0, 2^zoom) |
| Projection.TileXInRangeIff | generate_osm_maps.py:31 | both directions: the column is in range exactly for longitudes strictly between -180 minus one tile span and 180. Truncation toward zero also maps the sliver just west of -180 to column 0 |
| Projection.TruncRange | generate_osm_maps.py:31 | Python `int()` lands in [0, m) exactly for arguments strictly between -1 and m |
| Projection.FloorBracket | generate_osm_maps.py:31 | for a non-negative float, `int()` is the one integer x with x <= r < x + 1 |
| Projection.TileXAtAntimeridian | generate_osm_maps.py:31 | longitude 180 projects to column 2^zoom, one past the last existing column |
| Projection.TruncMonotone | generate_osm_maps.py:31 | `int()` of a float never decreases as its argument grows |
| Projection.TileXMonotone | generate_osm_maps.py:31 | the tile column never decreases as the longitude moves east |
| Projection.TileIndexMonotone | generate_osm_maps.py:31-32 | along either axis, `int(frac * 2^zoom)` never decreases as the position grows |
| Projection.TileYMonotone | generate_osm_maps.py:32 | the tile row never decreases as the Mercator ordinate grows, that is, as the latitude moves south |
| Projection.TileLonStrictlyIncreasing | generate_osm_maps.py:35-37 | western-edge longitudes strictly increase with the column index |
| Projection.TileLonStep | generate_osm_maps.py:36-37 | consecutive column edges are exactly one tile span apart |
| Projection.CornerInSpans | generate_osm_maps.py:37 | a column's western edge lies its index times the tile span east of -180 |
| Projection.TileLonBrackets | generate_osm_maps.py:28-40 | round trip between the two helpers, both directions: for a longitude east of -180, x is its column exactly when the edges of x and x + 1 bracket it |
| Projection.TileXOfTileLon | generate_osm_maps.py:28-40 | projecting a column's western edge back gives that same column, for every integer column |
| Projection.TokyoColumnAtZoom10 | generate_osm_maps.py:140-143 | the Tokyo map's centre, longitude 139.6503 at zoom 10, lies in column 909 |
| Grid.RequestGrid | generate_osm_maps.py:46-50 | the loops request, at row r and column c, the tile c - 1 columns east and r - 1 rows south of the centre, at the same zoom |
| Grid.CentreCellIsCentreTile | generate_osm_maps.py:43-50 | the middle cell requests the projected centre tile itself |
| Grid.GridIsNeighbourhood | generate_osm_maps.py:46-50 | the nine requests are exactly the one-step neighbourhood of the centre, diagonals included, and no tile is requested twice |
| Grid.BorderRequestsLeaveWorld | generate_osm_maps.py:47-51 | with the centre inside the world, some request names a tile that does not exist exactly when the centre lies on the world's border |
| Grid.ZoomZeroOnlyCentreExists | generate_osm_maps.py:47-51 | at zoom 0, every cell except the centre requests a tile outside the one-tile world |
| TileUrl.Url | generate_osm_maps.py:51 | defines the request URL `https://tile.openstreetmap.org/{zoom}/{x}/{y}.png` with Python's decimal rendering of each integer |
| TileUrl.IntToString | generate_osm_maps.py:51 | defines Python's `str()` of an int: a minus sign before the digits of a negative number |
| TileUrl.NatToString | generate_osm_maps.py:51 | the decimal rendering of a number is a non-empty run of digits |
| TileUrl.ParseIntToString | generate_osm_maps.py:51 | reading back the decimal rendering of any integer, negatives included, gives that integer |
| TileUrl.ParseUrlOfUrl | generate_osm_maps.py:51 | the URL formatted for a tile parses back to exactly that tile |
| TileUrl.UrlInjective | generate_osm_maps.py:51 | different tiles are requested at different URLs |
| TileUrl.GridUrlsDistinct | generate_osm_maps.py:46-51 | the nine cells of a request grid send nine different URLs |
| TileUrl.WestOfColumnZeroUrl | generate_osm_maps.py:50-51 | the western neighbour of a column-0 tile is requested with a literal `-1` in the path, with no wrap-around |
| Fetch.BlankTile | generate_osm_maps.py:58-65 | defines the placeholder `Image.new('RGB', (256, 256), color='#f0f0f0')` |
| Fetch.Succeeded | generate_osm_maps.py:54-57 | defines when a cell keeps the server's image: the request returned, with status 200, and `Image.open` identified the body |
| Fetch.ResolveTile | generate_osm_maps.py:53-65 | a cell holds the server's body exactly when the status is 200 and `Image.open` identifies it, at the size its header declares. Every other status, and an exception from the request or from the identification, gives the blank tile |
| Fetch.FetchTiles | generate_osm_maps.py:46-66 | the loops fill a 3×3 tile grid whose cell (r, c) resolves the (3r + c)-th request issued |
| Fetch.EveryCellFilled | generate_osm_maps.py:53-65 | no cell is ever missing: each holds either its decoded response or the blank tile |
| Fetch.AllFailuresGiveBlankGrid | generate_osm_maps.py:53-65 | when every request fails, the grid is nine blank tiles |
| Fetch.TilesFullSize | generate_osm_maps.py:56-64 | when the server only sends 256×256 images, every cell is 256×256, blanks included |
| Canvas.Compose | generate_osm_maps.py:73-75 | the paste loops paste the tile of row r, column c at offset (256c, 256r), in row-major order |
| Canvas.Owner | generate_osm_maps.py:71-75 | a canvas pixel shows the last paste covering it, and shows the black background exactly when no paste covers it |
| Canvas.CellPartition | generate_osm_maps.py:69-75 | a canvas pixel lies in cell (row, col) exactly when row and col are its coordinates divided by 256 |
| Canvas.CellInsideCanvas | generate_osm_maps.py:69-75 | every cell lies within the 768×768 canvas |
| Canvas.CellsDisjoint | generate_osm_maps.py:73-75 | two different cells share no pixel |
| Canvas.CellsCoverCanvas | generate_osm_maps.py:69-75 | every canvas pixel lies in some cell |
| Canvas.ComposedCanvasOwnership | generate_osm_maps.py:69-75 | with nine 256×256 tiles, every canvas pixel comes from the tile of its own cell: no neighbour overwrites it and no background shows |
| Canvas.CropBox | generate_osm_maps.py:79-92 | the crop box is non-inverted exactly when the requested size is non-negative. It then lies inside the canvas, and is min(width, 768) wide and min(height, 768) high |
| Canvas.CropCentred | generate_osm_maps.py:79-85 | a width up to 768 is honoured exactly and centred on the canvas to within half a pixel, with the odd pixel on the right |
| Canvas.CropCentredVertically | generate_osm_maps.py:80-84 | the same for the height: a height up to 768 is honoured exactly and centred to within half a pixel, with the odd pixel at the bottom |
| Canvas.CropTruncatesWide | generate_osm_maps.py:81-90 | a width beyond 768 is cut to the whole canvas width |
| Canvas.DefaultCropIsNarrower | generate_osm_maps.py:79-92 | the default 800×600 request crops the box (0, 84, 768, 684), which is 768 pixels wide, not 800 |
| Markers.SourceMarkerX | generate_osm_maps.py:107-111 | defines `x_pos = (lon - left_lon) / (right_lon - left_lon) * width` with `left_lon` and `right_lon` the western edges of tiles `tile_x - 1` and `tile_x + 1` |
| Markers.SourceMarkerY | generate_osm_maps.py:112 | defines `y_pos = (top_lat - lat) / (top_lat - bottom_lat) * height`, with the edge latitudes given |
| Markers.InterpolationSpan | generate_osm_maps.py:107-108 | the interpolation's end longitudes are two tile spans apart |
| Markers.SourceMarkerXShape | generate_osm_maps.py:107-111 | the routine's x interpolation sends `left_lon` to 0 and `right_lon` to `width`, and strictly increases with longitude for a positive width |
| Markers.SourceMarkerYShape | generate_osm_maps.py:105-112 | the routine's y interpolation sends `top_lat` to 0 and `bottom_lat` to `height`, and strictly increases southwards for a positive height |
| Markers.SourceMarkerHalfway | generate_osm_maps.py:107-111 | the routine places the centre tile's western edge halfway across the output width |
| Markers.SourceMarkerXMisplaced | generate_osm_maps.py:79-111 | as written, a marker on the centre tile's western edge is drawn at least 128 pixels east of the column that shows it (see Findings) |
| Markers.CanvasXInPastedCell | generate_osm_maps.py:69-75 | a longitude whose tile is grid column k is shown inside canvas columns [256k, 256k + 256) |
| Markers.CanvasXNearCorner | generate_osm_maps.py:73-75 | a point t tile spans east of the centre tile's western edge is at canvas column 256(1 + t) |
| Markers.DisplayedXAtCentre | generate_osm_maps.py:79-92 | with a width up to 768, the middle of the centre tile is shown at column width / 2 of the cropped image |
| Markers.MarkerMarks | generate_osm_maps.py:114-121 | defines what one marker draws at (x_pos, y_pos): its circle, then, when the `label` key is present, a label anchored 20 units above |
| Markers.DrawMarkers | generate_osm_maps.py:99-121 | defines the marks of a marker list: each marker's marks in list order, placed by the given x and y placements |
| Markers.DrawMarkersDrawsEvery | generate_osm_maps.py:99-121 | for any placement, every marker's circle is among the marks, and so is its label when it has one |
| Markers.DrawMarkersAppend | generate_osm_maps.py:99-121 | drawing two marker lists in sequence draws the first list's marks, then the second's |
| Markers.DrawMarkersInOrder | generate_osm_maps.py:100-121 | the marks of marker i follow those of every earlier marker and precede those of every later one |
| Markers.DrawMarkersCount | generate_osm_maps.py:99-121 | one circle is drawn per marker and one label per labelled marker, nothing more |
| Markers.LabelDrawnIffPresent | generate_osm_maps.py:119-121 | a label with a given text is drawn for a marker exactly when the marker carries that label |
| StaticMap.CreateStaticMap | generate_osm_maps.py:18-121 | the whole routine: centre projection, request grid, fallback resolution, pastes, crop size, and markers drawn in order at the routine's own `x_pos` and `y_pos`, each circle present and each label present when the marker has one. An empty or missing marker list draws nothing |
| StaticMap.MarkerLayer | generate_osm_maps.py:99-121 | defines the marks drawn for a marker list, each marker placed at the routine's `x_pos` and `y_pos` |
| StaticMap.MarkerLayerDrawsEveryMarker | generate_osm_maps.py:99-121 | the marker layer holds one mark per marker plus one per labelled marker, with each marker's circle at its `(x_pos, y_pos)` and its label, when present, 20 units above |
| StaticMap.RenderShowsOnlyTiles | generate_osm_maps.py:53-92 | with 256×256 server tiles, every pixel of the cropped output shows the tile of its own cell |

## Left out

- The latitude half of the projection (`asinh`, `tan`, `sinh`, `atan`) is transcendental.
  - `TileY` takes the normalised Mercator ordinate as its input.
  - `SourceMarkerY` takes the edge latitudes `top_lat` and `bottom_lat` as inputs.
  - `StaticMap.CreateStaticMap` takes `top_lat` and `bottom_lat` as inputs. It requires them to
    differ, as the strictly monotone inverse Mercator formula guarantees for rows `tile_y - 1`
    and `tile_y + 1`.
- Floating-point rounding: floats are modelled as exact reals. Near a tile edge, rounding may move
  `int()` across the edge, and the model does not capture that.
- The HTTP request, its `User-Agent` header and the network. A request is its outcome, given to the
  model in request order.
- Requests that never return. `requests.get` (generate_osm_maps.py:54) has no timeout, so a stalled
  server blocks the routine forever. The model assumes every request returns or raises.
- PIL's pixel decoding. `Image.open` (generate_osm_maps.py:56) reads only the header. The pixel
  data is decoded when `combined.paste` loads the tile (generate_osm_maps.py:75), outside the
  `try`. A 200 response with a valid header but a truncated or corrupt body therefore makes the
  whole routine raise instead of giving a blank tile. The model has no such failure: `Decoder` is
  the identification step alone, and `Canvas.Compose` cannot fail.
- Pixel contents. Images carry their size and the origin of their pixels, not colour values.
- The matplotlib figure is not modelled: the figure size, `imshow`, `axis('off')`, the circle's
  radius and colours, the label's box style, the title, `tight_layout`, `savefig` and `close`.
  `os.makedirs` and the final `print` are not modelled either. These are drawing and output
  concerns. The model records only what is drawn, in what order and where.
- The script's top-level calls at generate_osm_maps.py:133-248 are not modelled. The exceptions are
  the Tokyo centre (`Projection.TokyoColumnAtZoom10`) and the default size
  (`Canvas.DefaultCropIsNarrower`).
- A marker dictionary without `lat` or `lon` raises `KeyError`. Markers are a datatype that always
  has both.
- Negative zoom levels are not modelled: zoom is a natural number, as the tile server requires.
- A negative width or height is not modelled: `plt.subplots` or PIL's `crop` raises on it. The model
  only states that the crop box is then inverted (`Canvas.CropBox`).
- Projection.TileLonBrackets: holds only for longitudes at or east of -180. Further west, truncation
  toward zero puts up to one extra tile span of longitudes into column 0.
- Markers.CanvasXInPastedCell: likewise requires a longitude at or east of -180.

## Findings

| source | as written | input that shows it | evidently intended | confidence | as-written member | corrected member |
|---|---|---|---|---|---|---|
| generate_osm_maps.py:107-111 | `x_pos = (marker_lon - left_lon) / (right_lon - left_lon) * width`. `left_lon` and `right_lon` are the western edges of tiles `tile_x - 1` and `tile_x + 1`, so two tiles (512 canvas pixels) are stretched over the whole output width, and the crop offset is ignored | the default 800×600 map with a marker exactly on the western edge of the centre tile. It is drawn at x = 400, but the cropped image shows that longitude at column 256 | the column of the cropped image that shows the marker's longitude: its position in tile units, minus `tile_x - 1`, times 256, minus the crop's left edge | high; not executed | Markers.SourceMarkerXMisplaced | Markers.DisplayedXAtCentre |

The corrected placement is `Markers.DisplayedX`, built on `Markers.CanvasX`. Two lemmas prove it
against the composition:

- `Markers.CanvasXInPastedCell`: every longitude lands inside the canvas cell where its tile was
  pasted.
- `Markers.DisplayedXAtCentre`: the centre of the centre tile lands at the middle of the output.

`DisplayedX` measures in pixel-edge coordinates, in which pixel column j covers [j, j + 1). The
data coordinates a `Circle` takes put the centre of column j at j, so there the corrected
position is half a pixel further left. The half pixel does not affect the 128-pixel discrepancy.

`StaticMap.CreateStaticMap` models the routine as written and draws at `SourceMarkerX`. The
corrected placement stands beside it, related to it by `Markers.SourceMarkerXMisplaced`.
