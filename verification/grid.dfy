/** The 3×3 neighbourhood of tiles the map routine requests around the centre tile. Offsets run
    from -1 to 1 on both axes, row by row from north to south; indices are used as they come,
    never wrapped around the antimeridian nor clamped at the poles. */
module Grid {
  import opened Projection

  /** One tile of the slippy map, as addressed in a request `/{zoom}/{x}/{y}.png`. */
  datatype TileCoord = TileCoord(zoom: nat, x: int, y: int)

  /** Tiles per side of the requested neighbourhood. */
  const GridSize: nat := 3

  /** A 3×3 arrangement, indexed `[row][column]`. */
  predicate IsGrid<T>(g: seq<seq<T>>)
  {
    |g| == GridSize && forall r :: 0 <= r < GridSize ==> |g[r]| == GridSize
  }

  /** Cell (row, col) of `grid` asks for the tile `col - 1` columns east and `row - 1` rows south
      of the centre tile, at the same zoom. */
  predicate IsRequestGrid(grid: seq<seq<TileCoord>>, tileX: int, tileY: int, zoom: nat)
  {
    && IsGrid(grid)
    && forall r, c :: 0 <= r < GridSize && 0 <= c < GridSize ==>
         grid[r][c] == TileCoord(zoom, tileX + c - 1, tileY + r - 1)
  }

  /** Whether a tile index exists at its zoom level. */
  predicate InWorld(t: TileCoord)
  {
    0 <= t.x < Pow2(t.zoom) && 0 <= t.y < Pow2(t.zoom)
  }

  /** Every tile within one step of the centre, diagonals included. */
  function Neighbourhood(tileX: int, tileY: int, zoom: nat): set<TileCoord>
  {
    set x: int, y: int | tileX - 1 <= x <= tileX + 1 && tileY - 1 <= y <= tileY + 1 :: TileCoord(zoom, x, y)
  }

  /** The tiles a grid holds, whatever their position. */
  function Cells(grid: seq<seq<TileCoord>>): set<TileCoord>
    requires IsGrid(grid)
  {
    set r, c | 0 <= r < GridSize && 0 <= c < GridSize :: grid[r][c]
  }

  /** Builds the request list the way the nested `for dy` / `for dx` loops do: rows from
      dy = -1 to 1, and within a row columns from dx = -1 to 1. */
  method RequestGrid(tileX: int, tileY: int, zoom: nat) returns (grid: seq<seq<TileCoord>>)
    ensures IsRequestGrid(grid, tileX, tileY, zoom)
  {
    grid := [];
    var dy := -1;
    while dy < 2
      invariant -1 <= dy <= 2
      invariant |grid| == dy + 1
      invariant forall r :: 0 <= r < |grid| ==> |grid[r]| == GridSize
      invariant forall r, c :: 0 <= r < |grid| && 0 <= c < GridSize ==>
                  grid[r][c] == TileCoord(zoom, tileX + c - 1, tileY + r - 1)
    {
      var row := [];
      var dx := -1;
      while dx < 2
        invariant -1 <= dx <= 2
        invariant |row| == dx + 1
        invariant forall c :: 0 <= c < |row| ==> row[c] == TileCoord(zoom, tileX + c - 1, tileY + dy)
      {
        row := row + [TileCoord(zoom, tileX + dx, tileY + dy)];
        dx := dx + 1;
      }
      grid := grid + [row];
      dy := dy + 1;
    }
  }

  /** The centre cell requests the projected tile itself. */
  lemma CentreCellIsCentreTile(grid: seq<seq<TileCoord>>, tileX: int, tileY: int, zoom: nat)
    requires IsRequestGrid(grid, tileX, tileY, zoom)
    ensures grid[1][1] == TileCoord(zoom, tileX, tileY)
  {
  }

  /** The grid asks for exactly the one-step neighbourhood of the centre, and for each of its
      tiles exactly once. */
  lemma GridIsNeighbourhood(grid: seq<seq<TileCoord>>, tileX: int, tileY: int, zoom: nat)
    requires IsRequestGrid(grid, tileX, tileY, zoom)
    ensures Cells(grid) == Neighbourhood(tileX, tileY, zoom)
    ensures forall r1, c1, r2, c2 ::
              (0 <= r1 < GridSize && 0 <= c1 < GridSize && 0 <= r2 < GridSize && 0 <= c2 < GridSize
               && grid[r1][c1] == grid[r2][c2]) ==> r1 == r2 && c1 == c2
  {
    forall t | t in Neighbourhood(tileX, tileY, zoom)
      ensures t in Cells(grid)
    {
      var r, c := t.y - tileY + 1, t.x - tileX + 1;
      assert grid[r][c] == t;
    }
  }

  /** With the centre inside the world, the grid requests a tile that does not exist exactly
      when the centre lies on the world's border: nothing wraps or clamps the neighbours. */
  lemma BorderRequestsLeaveWorld(grid: seq<seq<TileCoord>>, tileX: int, tileY: int, zoom: nat)
    requires IsRequestGrid(grid, tileX, tileY, zoom)
    requires InWorld(TileCoord(zoom, tileX, tileY))
    ensures (exists r, c :: 0 <= r < GridSize && 0 <= c < GridSize && !InWorld(grid[r][c]))
        <==> (tileX == 0 || tileX == Pow2(zoom) - 1 || tileY == 0 || tileY == Pow2(zoom) - 1)
  {
    var n := Pow2(zoom);
    if tileX == 0 {
      assert !InWorld(grid[1][0]);
    } else if tileX == n - 1 {
      assert !InWorld(grid[1][2]);
    } else if tileY == 0 {
      assert !InWorld(grid[0][1]);
    } else if tileY == n - 1 {
      assert !InWorld(grid[2][1]);
    }
  }

  /** At zoom 0 the world is one tile, so every neighbour requested around it is outside it. */
  lemma ZoomZeroOnlyCentreExists(grid: seq<seq<TileCoord>>)
    requires IsRequestGrid(grid, 0, 0, 0)
    ensures forall r, c :: 0 <= r < GridSize && 0 <= c < GridSize ==>
      (InWorld(grid[r][c]) <==> r == 1 && c == 1)
  {
  }
}
