/** The level's tile grid, indexed `tiles[y][x]`. */
module CaveMaps {

  datatype Tile = Wall | Empty | Exit | DarkTile | LightTile

  /** A width × height grid; width and height are fixed when the map is made. */
  datatype CaveMap = CaveMap(width: int, height: int, tiles: seq<seq<Tile>>) {

    /** The grid really is height rows of width tiles each. */
    predicate Valid() {
      && 0 <= width && 0 <= height
      && |tiles| == height
      && forall y | 0 <= y < height :: |tiles[y]| == width
    }

    predicate InBounds(x: int, y: int) {
      0 <= x < width && 0 <= y < height
    }
  }

  /** `new CaveMap(width, height)`: every cell starts EMPTY.  A negative size makes
      the Java array allocation throw, so callers pass sizes of zero or more. */
  function New(width: int, height: int): (m: CaveMap)
    requires 0 <= width && 0 <= height
    ensures m.Valid() && m.width == width && m.height == height
    ensures forall x, y | m.InBounds(x, y) :: GetTile(m, x, y) == Empty
  {
    CaveMap(width, height, seq(height, _ => seq(width, _ => Empty)))
  }

  /** `getTile`: the stored tile, or WALL for any coordinate outside the grid. */
  function GetTile(m: CaveMap, x: int, y: int): (t: Tile)
    requires m.Valid()
    ensures !m.InBounds(x, y) ==> t == Wall
    ensures m.InBounds(x, y) ==> t == m.tiles[y][x]
  {
    if x < 0 || x >= m.width || y < 0 || y >= m.height then Wall else m.tiles[y][x]
  }

  /** `setTile`: the Java array store throws outside the grid, so callers stay inside it. */
  function SetTile(m: CaveMap, x: int, y: int, t: Tile): (m': CaveMap)
    requires m.Valid() && m.InBounds(x, y)
    ensures m'.Valid() && m'.width == m.width && m'.height == m.height
    ensures GetTile(m', x, y) == t
    ensures forall x', y' | x' != x || y' != y :: GetTile(m', x', y') == GetTile(m, x', y')
  {
    m.(tiles := m.tiles[y := m.tiles[y][x := t]])
  }
}
