/** What each grid cell ends up holding. The HTTP request, its headers and PIL are outside the
    model: a request is reduced to its outcome (a response with a status code and a body, or an
    exception), and `Image.open` to a function telling whether the body's header identifies an
    image and of what size. `Image.open` is lazy: it reads the header only, and the pixel data is
    decoded later, when the tile is pasted, outside the `try`. A status of 200 whose body is
    identified gives that image; any other status, and any exception raised by the request or
    by the identification, gives a blank 256×256 tile. */
module Fetch {
  import opened Wrappers
  import opened Grid

  /** Edge length of an OpenStreetMap tile, in pixels. */
  const TileSize: nat := 256

  /** Colour of the placeholder tile. */
  const BlankColour: string := "#f0f0f0"

  /** The only status code treated as success. */
  const StatusOk: int := 200

  /** Width and height of a decoded image. */
  datatype Size = Size(width: nat, height: nat)

  /** Where a tile's pixels come from: the bytes the server sent, or a solid fill. */
  datatype Pixels = Decoded(body: seq<bv8>) | Solid(colour: string)

  /** An image as far as the compositor cares: its size and the origin of its pixels. */
  datatype Image = Image(width: nat, height: nat, pixels: Pixels)

  /** The outcome of one tile request. */
  datatype FetchOutcome = Response(status: int, body: seq<bv8>) | Raised

  /** Stands for `Image.open`'s identification step: the size the header of `body` declares, or
      None when identification raises. */
  type Decoder = seq<bv8> -> Option<Size>

  /** The placeholder `Image.new('RGB', (256, 256), color='#f0f0f0')`. */
  function BlankTile(): Image
  {
    Image(TileSize, TileSize, Solid(BlankColour))
  }

  /** The request succeeded and its body decodes. */
  predicate Succeeded(o: FetchOutcome, decode: Decoder)
  {
    o.Response? && o.status == StatusOk && decode(o.body).Some?
  }

  /** The fallback policy for one cell. */
  function ResolveTile(o: FetchOutcome, decode: Decoder): (t: Image)
    ensures t.pixels.Decoded? <==> Succeeded(o, decode)
    ensures Succeeded(o, decode) ==>
      t.pixels == Decoded(o.body) && Size(t.width, t.height) == decode(o.body).value
    ensures !Succeeded(o, decode) ==> t == BlankTile()
  {
    match o
    case Raised => BlankTile()
    case Response(status, body) =>
      if status == StatusOk then
        match decode(body)
        case Some(size) => Image(size.width, size.height, Decoded(body))
        case None => BlankTile()
      else BlankTile()
  }

  /** The tile grid built from the outcomes of the nine requests, given in the order the loops
      issue them (row by row, west to east within a row). */
  predicate IsTileGrid(tiles: seq<seq<Image>>, outcomes: seq<FetchOutcome>, decode: Decoder)
    requires |outcomes| == GridSize * GridSize
  {
    && IsGrid(tiles)
    && forall r, c :: 0 <= r < GridSize && 0 <= c < GridSize ==>
         tiles[r][c] == ResolveTile(outcomes[GridSize * r + c], decode)
  }

  /** Appends one image per request to the rows, as the loops do. */
  method FetchTiles(outcomes: seq<FetchOutcome>, decode: Decoder) returns (tiles: seq<seq<Image>>)
    requires |outcomes| == GridSize * GridSize
    ensures IsTileGrid(tiles, outcomes, decode)
  {
    tiles := [];
    var r := 0;
    while r < GridSize
      invariant 0 <= r <= GridSize
      invariant |tiles| == r
      invariant forall i :: 0 <= i < r ==> |tiles[i]| == GridSize
      invariant forall i, c :: 0 <= i < r && 0 <= c < GridSize ==>
                  tiles[i][c] == ResolveTile(outcomes[GridSize * i + c], decode)
    {
      var row := [];
      var c := 0;
      while c < GridSize
        invariant 0 <= c <= GridSize
        invariant |row| == c
        invariant forall j :: 0 <= j < c ==> row[j] == ResolveTile(outcomes[GridSize * r + j], decode)
      {
        row := row + [ResolveTile(outcomes[GridSize * r + c], decode)];
        c := c + 1;
      }
      tiles := tiles + [row];
      r := r + 1;
    }
  }

  /** No cell is ever missing: a request that fails in any way still leaves a full-size tile,
      and one that succeeds leaves the decoded image. */
  lemma EveryCellFilled(tiles: seq<seq<Image>>, outcomes: seq<FetchOutcome>, decode: Decoder)
    requires |outcomes| == GridSize * GridSize
    requires IsTileGrid(tiles, outcomes, decode)
    ensures forall r, c :: 0 <= r < GridSize && 0 <= c < GridSize ==>
      if Succeeded(outcomes[GridSize * r + c], decode)
      then tiles[r][c].pixels == Decoded(outcomes[GridSize * r + c].body)
      else tiles[r][c] == BlankTile()
  {
  }

  /** When every request fails the grid is nine blank tiles. */
  lemma AllFailuresGiveBlankGrid(tiles: seq<seq<Image>>, outcomes: seq<FetchOutcome>, decode: Decoder)
    requires |outcomes| == GridSize * GridSize
    requires IsTileGrid(tiles, outcomes, decode)
    requires forall i :: 0 <= i < |outcomes| ==> !Succeeded(outcomes[i], decode)
    ensures forall r, c :: 0 <= r < GridSize && 0 <= c < GridSize ==> tiles[r][c] == BlankTile()
  {
    forall r, c | 0 <= r < GridSize && 0 <= c < GridSize
      ensures tiles[r][c] == BlankTile()
    {
      assert !Succeeded(outcomes[GridSize * r + c], decode);
    }
  }

  /** Every cell is a full 256×256 tile whenever the server only ever sends 256×256 images,
      as OpenStreetMap's tile server does. */
  lemma TilesFullSize(tiles: seq<seq<Image>>, outcomes: seq<FetchOutcome>, decode: Decoder)
    requires |outcomes| == GridSize * GridSize
    requires IsTileGrid(tiles, outcomes, decode)
    requires forall i :: 0 <= i < |outcomes| && Succeeded(outcomes[i], decode) ==>
      decode(outcomes[i].body).value == Size(TileSize, TileSize)
    ensures forall r, c :: 0 <= r < GridSize && 0 <= c < GridSize ==>
      tiles[r][c].width == TileSize && tiles[r][c].height == TileSize
  {
    forall r, c | 0 <= r < GridSize && 0 <= c < GridSize
      ensures tiles[r][c].width == TileSize && tiles[r][c].height == TileSize
    {
      var i := GridSize * r + c;
      assert 0 <= i < |outcomes|;
    }
  }
}
