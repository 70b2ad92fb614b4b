/** Composition of the nine tiles into one 768×768 canvas and the centred crop. Pixel values
    are not modelled: the canvas is described by which paste, if any, a pixel comes from. PIL's
    `paste` overwrites, so a pixel shows the LAST pasted image covering it; a pixel no image
    covers keeps the black of `Image.new('RGB', ...)`. */
module Canvas {
  import opened Wrappers
  import opened Grid
  import opened Fetch

  /** Width and height of the combined image: three tiles. */
  const CanvasSize: nat := TileSize * GridSize

  function Min(a: int, b: int): int { if a <= b then a else b }
  function Max(a: int, b: int): int { if a >= b then a else b }

  /** A half-open pixel box `[left, right) × [top, bottom)`, as PIL boxes are. */
  datatype Rect = Rect(left: int, top: int, right: int, bottom: int)

  predicate Contains(box: Rect, px: int, py: int)
  {
    box.left <= px < box.right && box.top <= py < box.bottom
  }

  predicate InCanvas(px: int, py: int)
  {
    0 <= px < CanvasSize && 0 <= py < CanvasSize
  }

  /** The square reserved for the tile in grid row `row`, column `col`. */
  function CellRect(row: int, col: int): Rect
  {
    Rect(col * TileSize, row * TileSize, (col + 1) * TileSize, (row + 1) * TileSize)
  }

  /** One `combined.paste(tile, (x, y))` call. */
  datatype Paste = Paste(image: Image, x: int, y: int)

  /** The pixels a paste writes (before clipping to the canvas). */
  function PasteRect(p: Paste): Rect
  {
    Rect(p.x, p.y, p.x + p.image.width, p.y + p.image.height)
  }

  /** The paste calls for a 3×3 tile grid: row by row, the tile of row `r`, column `c` at
      offset `(c * 256, r * 256)`. */
  predicate IsComposition(tiles: seq<seq<Image>>, pastes: seq<Paste>)
    requires IsGrid(tiles)
  {
    && |pastes| == GridSize * GridSize
    && forall r, c :: 0 <= r < GridSize && 0 <= c < GridSize ==>
         pastes[GridSize * r + c] == Paste(tiles[r][c], c * TileSize, r * TileSize)
  }

  /** The `for y, row in enumerate(tiles)` / `for x, tile in enumerate(row)` loops. */
  method Compose(tiles: seq<seq<Image>>) returns (pastes: seq<Paste>)
    requires IsGrid(tiles)
    ensures IsComposition(tiles, pastes)
  {
    pastes := [];
    var y := 0;
    while y < GridSize
      invariant 0 <= y <= GridSize
      invariant |pastes| == GridSize * y
      invariant forall r, c :: 0 <= r < y && 0 <= c < GridSize ==>
                  pastes[GridSize * r + c] == Paste(tiles[r][c], c * TileSize, r * TileSize)
    {
      var x := 0;
      while x < GridSize
        invariant 0 <= x <= GridSize
        invariant |pastes| == GridSize * y + x
        invariant forall r, c :: 0 <= r < y && 0 <= c < GridSize ==>
                    pastes[GridSize * r + c] == Paste(tiles[r][c], c * TileSize, r * TileSize)
        invariant forall c :: 0 <= c < x ==>
                    pastes[GridSize * y + c] == Paste(tiles[y][c], c * TileSize, y * TileSize)
      {
        pastes := pastes + [Paste(tiles[y][x], x * TileSize, y * TileSize)];
        x := x + 1;
      }
      y := y + 1;
    }
  }

  /** Which paste a pixel of the canvas shows: the last one covering it, or None for the
      black background. */
  function Owner(pastes: seq<Paste>, px: int, py: int): (o: Option<nat>)
    ensures o.Some? ==> o.value < |pastes| && Contains(PasteRect(pastes[o.value]), px, py)
    ensures o.Some? ==>
      forall j :: o.value < j < |pastes| ==> !Contains(PasteRect(pastes[j]), px, py)
    ensures o.None? <==> forall j :: 0 <= j < |pastes| ==> !Contains(PasteRect(pastes[j]), px, py)
    decreases |pastes|
  {
    if |pastes| == 0 then None
    else if Contains(PasteRect(pastes[|pastes| - 1]), px, py) then Some(|pastes| - 1)
    else Owner(pastes[..|pastes| - 1], px, py)
  }

  // ---------------------------------------------------------------------------------------
  // The nine cells tile the canvas.

  /** A canvas pixel lies in exactly one cell: the one its coordinates divided by 256 name. */
  lemma CellPartition(row: int, col: int, px: int, py: int)
    requires 0 <= row < GridSize && 0 <= col < GridSize && InCanvas(px, py)
    ensures Contains(CellRect(row, col), px, py) <==> row == py / TileSize && col == px / TileSize
  {
  }

  /** Every cell lies within the canvas. */
  lemma CellInsideCanvas(row: int, col: int)
    requires 0 <= row < GridSize && 0 <= col < GridSize
    ensures var box := CellRect(row, col);
      0 <= box.left < box.right <= CanvasSize && 0 <= box.top < box.bottom <= CanvasSize
  {
  }

  /** Two different cells share no pixel. */
  lemma CellsDisjoint(r1: int, c1: int, r2: int, c2: int, px: int, py: int)
    requires 0 <= r1 < GridSize && 0 <= c1 < GridSize && 0 <= r2 < GridSize && 0 <= c2 < GridSize
    requires (r1, c1) != (r2, c2)
    ensures !(Contains(CellRect(r1, c1), px, py) && Contains(CellRect(r2, c2), px, py))
  {
  }

  /** Every canvas pixel lies in some cell. */
  lemma CellsCoverCanvas(px: int, py: int)
    requires InCanvas(px, py)
    ensures exists r, c :: 0 <= r < GridSize && 0 <= c < GridSize && Contains(CellRect(r, c), px, py)
  {
    assert Contains(CellRect(py / TileSize, px / TileSize), px, py);
  }

  /** When all nine tiles are full 256×256 tiles, every canvas pixel comes from the tile of the
      cell it lies in: nothing is overwritten by a neighbour and no background shows. */
  lemma ComposedCanvasOwnership(tiles: seq<seq<Image>>, pastes: seq<Paste>, px: int, py: int)
    requires IsGrid(tiles) && IsComposition(tiles, pastes)
    requires forall r, c :: 0 <= r < GridSize && 0 <= c < GridSize ==>
      tiles[r][c].width == TileSize && tiles[r][c].height == TileSize
    requires InCanvas(px, py)
    ensures Owner(pastes, px, py) == Some(GridSize * (py / TileSize) + px / TileSize)
    ensures pastes[GridSize * (py / TileSize) + px / TileSize].image == tiles[py / TileSize][px / TileSize]
  {
    var k := GridSize * (py / TileSize) + px / TileSize;
    forall j | 0 <= j < |pastes|
      ensures Contains(PasteRect(pastes[j]), px, py) <==> j == k
    {
      var r, c := j / GridSize, j % GridSize;
      assert j == GridSize * r + c && 0 <= r < GridSize && 0 <= c < GridSize;
      assert pastes[j] == Paste(tiles[r][c], c * TileSize, r * TileSize);
      assert PasteRect(pastes[j]) == CellRect(r, c);
      CellPartition(r, c, px, py);
    }
    assert 0 <= k < |pastes|;
    var o := Owner(pastes, px, py);
    assert o.Some? by {
      assert Contains(PasteRect(pastes[k]), px, py);
    }
  }

  // ---------------------------------------------------------------------------------------
  // The crop.

  /** The crop box: centred on the canvas centre, then each edge clamped into the canvas
      independently. Python's `//` floors; Dafny's `/` by a positive divisor does too. */
  function CropBox(width: int, height: int): (box: Rect)
    ensures box.left <= box.right <==> width >= 0
    ensures box.top <= box.bottom <==> height >= 0
    ensures width >= 0 ==>
      0 <= box.left && box.right <= CanvasSize && box.right - box.left == Min(width, CanvasSize)
    ensures height >= 0 ==>
      0 <= box.top && box.bottom <= CanvasSize && box.bottom - box.top == Min(height, CanvasSize)
  {
    var centerX := CanvasSize / 2;
    var centerY := CanvasSize / 2;
    var left := centerX - width / 2;
    var top := centerY - height / 2;
    var right := left + width;
    var bottom := top + height;
    Rect(Max(0, left), Max(0, top), Min(CanvasSize, right), Min(CanvasSize, bottom))
  }

  /** A requested width that fits the canvas is honoured exactly and centred on the middle of
      the centre tile to within half a pixel (odd widths put the extra pixel on the right). */
  lemma CropCentred(width: int, height: int)
    requires 0 <= width <= CanvasSize
    ensures var box := CropBox(width, height);
      && box.left == CanvasSize / 2 - width / 2
      && box.right - box.left == width
      && CanvasSize <= box.left + box.right <= CanvasSize + 1
  {
  }

  /** The same for the height: a height up to the canvas size is honoured exactly and centred
      to within half a pixel, with the extra pixel of an odd height at the bottom. */
  lemma CropCentredVertically(width: int, height: int)
    requires 0 <= height <= CanvasSize
    ensures var box := CropBox(width, height);
      && box.top == CanvasSize / 2 - height / 2
      && box.bottom - box.top == height
      && CanvasSize <= box.top + box.bottom <= CanvasSize + 1
  {
  }

  /** A requested width beyond the canvas is silently cut to the whole canvas width. */
  lemma CropTruncatesWide(width: int, height: int)
    requires width > CanvasSize
    ensures CropBox(width, height).left == 0 && CropBox(width, height).right == CanvasSize
  {
  }

  /** The default 800×600 request yields a 768×600 image: 32 columns short. */
  lemma DefaultCropIsNarrower()
    ensures CropBox(800, 600) == Rect(0, 84, 768, 684)
  {
  }
}
