/**
 * The six levels the server ships with, and the facts about them the invariant of the
 * server needs: every row is as wide as the first, and each level's fish and crab
 * spawn cells are open floor.
 */
module Levels {
  import opened World
  import opened Server
  import opened ServerProps

  const Level0: Level := [
    "############",
    "#..........#",
    "#..D....L..#",
    "#..####....#",
    "#..#..M....#",
    "#..#..B....#",
    "#......E...#",
    "############"
  ]

  const Level1: Level := [
    "############",
    "#..M....B..#",
    "#..####....#",
    "#..D.......#",
    "#......L...#",
    "#..B....M..#",
    "#...E......#",
    "############"
  ]

  const Level2: Level := [
    "############",
    "#..D....M..#",
    "#..####....#",
    "#..B....L..#",
    "#..#..B....#",
    "#..#....M..#",
    "#...E......#",
    "############"
  ]

  const Level3: Level := [
    "############",
    "#..M....B..#",
    "###.####...#",
    "#..D....L..#",
    "#..B..M....#",
    "#..####....#",
    "#E.......B.#",
    "############"
  ]

  const Level4: Level := [
    "############",
    "#M...B..D..#",
    "#.####.###.#",
    "#...L..M...#",
    "#.B..###...#",
    "#...B...M..#",
    "#..E.......#",
    "############"
  ]

  const Level5: Level := [
    "############",
    "#..M....B..#",
    "#.####.###.#",
    "#..D....L..#",
    "#..B..M....#",
    "#.####.###.#",
    "#....B.....#",
    "#..M....B..#",
    "#...E......#",
    "############"
  ]

  const Shipped: seq<Level> := [Level0, Level1, Level2, Level3, Level4, Level5]

  /** The shipped table is one the server's invariant can start from. */
  lemma ShippedTableGood()
    ensures GoodTable(Shipped)
  {
  }
}
