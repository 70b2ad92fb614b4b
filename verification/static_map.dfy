/** `create_static_map_image` end to end, without the matplotlib figure, the title and the file
    output: project the centre, request the 3×3 neighbourhood, resolve each response with the
    fallback policy, paste the tiles, crop, and draw the markers where the routine's own
    interpolation puts them. The network is the sequence of request outcomes in the order the
    loops issue them. The edge latitudes `top_lat` and `bottom_lat`, which go through the inverse
    Mercator formula, are inputs. */
module StaticMap {
  import opened Wrappers
  import opened Projection
  import opened Grid
  import opened Fetch
  import opened Canvas
  import opened Markers

  /** Everything one call produces, in the order it is produced. */
  datatype Render = Render(
    centre: TileCoord,
    requests: seq<seq<TileCoord>>,
    tiles: seq<seq<Image>>,
    pastes: seq<Paste>,
    crop: Rect,
    marks: seq<Mark>)

  /** One render call. `mercY` is the normalised Mercator ordinate of the centre latitude;
      `topLat` and `bottomLat` are the northern-edge latitudes of the tile rows above and below
      the centre; `markers` is None when the argument is left at its default. */
  method CreateStaticMap(lon: real, mercY: real, zoom: nat, width: int, height: int,
                         markers: Option<seq<Marker>>, outcomes: seq<FetchOutcome>,
                         decode: Decoder, topLat: real, bottomLat: real)
      returns (m: Render)
    requires |outcomes| == GridSize * GridSize
    requires topLat != bottomLat
    ensures m.centre == TileCoord(zoom, TileX(lon, zoom), TileY(mercY, zoom))
    ensures IsRequestGrid(m.requests, m.centre.x, m.centre.y, zoom)
    ensures m.requests[1][1] == m.centre
    ensures IsTileGrid(m.tiles, outcomes, decode)
    ensures IsComposition(m.tiles, m.pastes)
    ensures (forall i :: 0 <= i < |outcomes| ==> !Succeeded(outcomes[i], decode)) ==>
      forall r, c :: 0 <= r < GridSize && 0 <= c < GridSize ==> m.tiles[r][c] == BlankTile()
    ensures m.crop == CropBox(width, height)
    ensures width >= 0 ==> m.crop.right - m.crop.left == Min(width, CanvasSize)
    ensures height >= 0 ==> m.crop.bottom - m.crop.top == Min(height, CanvasSize)
    ensures m.marks == MarkerLayer(markers.GetOr([]), m.centre.x, zoom, width, height, topLat, bottomLat)
    ensures |m.marks| == |markers.GetOr([])| + LabelCount(markers.GetOr([]))
    ensures forall mk :: mk in markers.GetOr([]) ==>
      Circle(SourceMarkerX(mk.lon, m.centre.x, zoom, width), SourceMarkerY(mk.lat, topLat, bottomLat, height))
        in m.marks
    ensures forall mk :: mk in markers.GetOr([]) && mk.caption.Some? ==>
      Label(SourceMarkerX(mk.lon, m.centre.x, zoom, width),
            SourceMarkerY(mk.lat, topLat, bottomLat, height) - LabelRise, mk.caption.value)
        in m.marks
  {
    var tileX, tileY := TileX(lon, zoom), TileY(mercY, zoom);
    var centre := TileCoord(zoom, tileX, tileY);
    var requests := RequestGrid(tileX, tileY, zoom);
    CentreCellIsCentreTile(requests, tileX, tileY, zoom);
    var tiles := FetchTiles(outcomes, decode);
    if forall i :: 0 <= i < |outcomes| ==> !Succeeded(outcomes[i], decode) {
      AllFailuresGiveBlankGrid(tiles, outcomes, decode);
    }
    var pastes := Compose(tiles);
    var crop := CropBox(width, height);
    var marks := MarkerLayer(markers.GetOr([]), tileX, zoom, width, height, topLat, bottomLat);
    MarkerLayerDrawsEveryMarker(markers.GetOr([]), tileX, zoom, width, height, topLat, bottomLat);
    m := Render(centre, requests, tiles, pastes, crop, marks);
  }

  /** The marks for `markers`, each placed with the routine's own `x_pos` and `y_pos`. */
  function MarkerLayer(markers: seq<Marker>, tileX: int, zoom: nat, width: int, height: int,
                       topLat: real, bottomLat: real): seq<Mark>
    requires topLat != bottomLat
  {
    DrawMarkers(markers, x => SourceMarkerX(x, tileX, zoom, width),
                y => SourceMarkerY(y, topLat, bottomLat, height))
  }

  /** The marker layer has one circle per marker at its `(x_pos, y_pos)`, one label per labelled
      marker 20 units above it, and nothing else. */
  lemma MarkerLayerDrawsEveryMarker(markers: seq<Marker>, tileX: int, zoom: nat, width: int,
                                    height: int, topLat: real, bottomLat: real)
    requires topLat != bottomLat
    ensures |MarkerLayer(markers, tileX, zoom, width, height, topLat, bottomLat)| == |markers| + LabelCount(markers)
    ensures forall i :: 0 <= i < |markers| ==>
      Circle(SourceMarkerX(markers[i].lon, tileX, zoom, width), SourceMarkerY(markers[i].lat, topLat, bottomLat, height))
        in MarkerLayer(markers, tileX, zoom, width, height, topLat, bottomLat)
    ensures forall i :: 0 <= i < |markers| && markers[i].caption.Some? ==>
      Label(SourceMarkerX(markers[i].lon, tileX, zoom, width),
            SourceMarkerY(markers[i].lat, topLat, bottomLat, height) - LabelRise, markers[i].caption.value)
        in MarkerLayer(markers, tileX, zoom, width, height, topLat, bottomLat)
  {
    var xOf := x => SourceMarkerX(x, tileX, zoom, width);
    var yOf := y => SourceMarkerY(y, topLat, bottomLat, height);
    DrawMarkersCount(markers, xOf, yOf);
    DrawMarkersDrawsEvery(markers, xOf, yOf);
  }

  /** With 256×256 tiles from the server, every pixel of the returned image shows the tile
      pasted in the cell it lies in; no part of the output is background. */
  lemma RenderShowsOnlyTiles(m: Render, outcomes: seq<FetchOutcome>, decode: Decoder,
                             width: int, height: int, px: int, py: int)
    requires |outcomes| == GridSize * GridSize
    requires IsTileGrid(m.tiles, outcomes, decode) && IsComposition(m.tiles, m.pastes)
    requires m.crop == CropBox(width, height)
    requires forall i :: 0 <= i < |outcomes| && Succeeded(outcomes[i], decode) ==>
      decode(outcomes[i].body).value == Size(TileSize, TileSize)
    requires width >= 0 && height >= 0 && Contains(m.crop, px, py)
    ensures Owner(m.pastes, px, py) == Some(GridSize * (py / TileSize) + px / TileSize)
    ensures m.pastes[Owner(m.pastes, px, py).value].image == m.tiles[py / TileSize][px / TileSize]
  {
    TilesFullSize(m.tiles, outcomes, decode);
    ComposedCanvasOwnership(m.tiles, m.pastes, px, py);
  }
}
