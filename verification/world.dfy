/**
 * The server's game world: the tile map, the two players and the objects, how a
 * level's rows become a world, and what one step of a player does to it.
 */
module World {
  import opened Wrappers
  import opened Positions
  import opened CaveMaps

  datatype Role = Fish | Crab {
    function Partner(): Role {
      match this
      case Fish => Crab
      case Crab => Fish
    }
  }

  datatype ObjectKind = Mushroom | Box | Rock

  /** An object on the map; only mushrooms are ever activated. */
  datatype GameObject = GameObject(kind: ObjectKind, pos: Position, active: bool)

  datatype Player = Player(id: string, name: string, role: Role, pos: Position)

  /** The state `broadcastState` reports: the map, the player in each role slot, the
      objects in load order, and whether the level has been won. */
  datatype GameState = GameState(
    cave: CaveMap,
    fish: Option<Player>,
    crab: Option<Player>,
    objects: seq<GameObject>,
    completed: bool)

  /** A level as the server stores it: one string per tile row, top row first. */
  type Level = seq<string>

  /** `loadLevel` takes the width from the first row and reads `width` characters of
      every row, so a level needs a row and no row shorter than the first. */
  predicate ValidLevel(rows: Level) {
    |rows| > 0 && forall y | 0 <= y < |rows| :: |rows[y]| >= |rows[0]|
  }

  // ------------------------------------------------------------- level loading

  /** `charToTile`: the level legend for tiles; every other character is floor. */
  function CharToTile(c: char): (t: Tile)
    ensures t == Wall <==> c == '#'
    ensures t == Exit <==> c == 'E'
    ensures t == DarkTile <==> c == 'D'
    ensures t == LightTile <==> c == 'L'
  {
    match c
    case '#' => Wall
    case 'E' => Exit
    case 'D' => DarkTile
    case 'L' => LightTile
    case _ => Empty
  }

  /** The object a level character places on its (floor) cell. */
  function KindAt(c: char): Option<ObjectKind> {
    if c == 'M' then Some(Mushroom) else if c == 'B' then Some(Box) else None
  }

  /** Row-major order: the order in which `loadLevel` visits the cells. */
  predicate Before(p: Position, q: Position) {
    p.y < q.y || (p.y == q.y && p.x < q.x)
  }

  /** An object that `loadLevel` could have placed: inside the level, on a cell whose
      character names its kind, and not yet active. */
  predicate PlacedBy(rows: Level, o: GameObject)
    requires ValidLevel(rows)
  {
    && 0 <= o.pos.y < |rows| && 0 <= o.pos.x < |rows[0]|
    && KindAt(rows[o.pos.y][o.pos.x]) == Some(o.kind)
    && !o.active
  }

  /** The tile grid of a level. */
  function MapOf(rows: Level): (m: CaveMap)
    requires ValidLevel(rows)
    ensures m.Valid() && m.width == |rows[0]| && m.height == |rows|
    ensures forall x, y | m.InBounds(x, y) :: GetTile(m, x, y) == CharToTile(rows[y][x])
  {
    var width := |rows[0]|;
    CaveMap(width, |rows|,
      seq(|rows|, y requires 0 <= y < |rows| =>
        seq(width, x requires 0 <= x < width => CharToTile(rows[y][x]))))
  }

  /** The objects of cells `x..width-1` of row `y`, left to right. */
  function RowObjects(rows: Level, y: nat, x: nat): (r: seq<GameObject>)
    requires ValidLevel(rows) && y < |rows| && x <= |rows[0]|
    ensures forall k | 0 <= k < |r| :: PlacedBy(rows, r[k]) && r[k].pos.y == y && x <= r[k].pos.x
    ensures forall k, j | 0 <= k < j < |r| :: r[k].pos.x < r[j].pos.x
    ensures forall x' | x <= x' < |rows[0]| && KindAt(rows[y][x']).Some? ::
              exists k | 0 <= k < |r| :: r[k].pos == Position(x', y)
    decreases |rows[0]| - x
  {
    if x == |rows[0]| then []
    else
      var rest := RowObjects(rows, y, x + 1);
      match KindAt(rows[y][x])
      case Some(kind) =>
        var r := [GameObject(kind, Position(x, y), false)] + rest;
        assert r[1..] == rest;
        assert r[0].pos == Position(x, y);
        r
      case None => rest
  }

  /** The objects of rows `y..` of a level, in row-major order. */
  function LevelObjects(rows: Level, y: nat): (r: seq<GameObject>)
    requires ValidLevel(rows) && y <= |rows|
    ensures forall k | 0 <= k < |r| :: PlacedBy(rows, r[k]) && y <= r[k].pos.y
    ensures forall k, j | 0 <= k < j < |r| :: Before(r[k].pos, r[j].pos)
    ensures forall x', y' | 0 <= x' < |rows[0]| && y <= y' < |rows| && KindAt(rows[y'][x']).Some? ::
              exists k | 0 <= k < |r| :: r[k].pos == Position(x', y')
    decreases |rows| - y
  {
    if y == |rows| then []
    else
      var row := RowObjects(rows, y, 0);
      var rest := LevelObjects(rows, y + 1);
      var r := row + rest;
      assert forall k | 0 <= k < |row| :: r[k] == row[k];
      assert forall k | 0 <= k < |rest| :: r[|row| + k] == rest[k];
      r
  }

  /** `loadLevel`: a fresh world for a level, with no players, every M and B cell
      holding an inactive mushroom or box (in row-major order), and not completed. */
  function LoadLevel(rows: Level): (g: GameState)
    requires ValidLevel(rows)
    ensures g.cave.Valid() && g.cave.width == |rows[0]| && g.cave.height == |rows|
    ensures forall x, y | g.cave.InBounds(x, y) :: GetTile(g.cave, x, y) == CharToTile(rows[y][x])
    ensures g.fish.None? && g.crab.None? && !g.completed
    ensures forall k | 0 <= k < |g.objects| :: PlacedBy(rows, g.objects[k])
    ensures forall k, j | 0 <= k < j < |g.objects| :: Before(g.objects[k].pos, g.objects[j].pos)
    ensures forall x, y | g.cave.InBounds(x, y) && KindAt(rows[y][x]).Some? ::
              exists k | 0 <= k < |g.objects| :: g.objects[k].pos == Position(x, y)
  {
    GameState(MapOf(rows), None, None, LevelObjects(rows, 0), false)
  }

  /** The two loops of `loadLevel` that fill the map, one `setTile` per cell. */
  method BuildMap(rows: Level) returns (m: CaveMap)
    requires ValidLevel(rows)
    ensures m == MapOf(rows)
  {
    var width, height := |rows[0]|, |rows|;
    m := New(width, height);
    var y := 0;
    while y < height
      invariant 0 <= y <= height
      invariant m.Valid() && m.width == width && m.height == height
      invariant forall y' | 0 <= y' < y :: m.tiles[y'] == MapOf(rows).tiles[y']
      invariant forall y' | y <= y' < height :: m.tiles[y'] == seq(width, _ => Empty)
    {
      var x := 0;
      while x < width
        invariant 0 <= x <= width
        invariant m.Valid() && m.width == width && m.height == height
        invariant forall y' | 0 <= y' < y :: m.tiles[y'] == MapOf(rows).tiles[y']
        invariant forall y' | y < y' < height :: m.tiles[y'] == seq(width, _ => Empty)
        invariant m.tiles[y][..x] == MapOf(rows).tiles[y][..x]
      {
        m := SetTile(m, x, y, CharToTile(rows[y][x]));
        x := x + 1;
      }
      assert m.tiles[y] == m.tiles[y][..width];
      y := y + 1;
    }
  }

  // ------------------------------------------------------------------- spawns

  const FishSpawn: Position := Position(1, 1)

  /** The crab's start cell for each level index; (2,5) for any other index. */
  function CrabSpawn(level: int): Position {
    if level == 0 then Position(2, 5)
    else if level == 1 then Position(10, 5)
    else if level == 2 then Position(2, 6)
    else if level == 3 then Position(9, 6)
    else if level == 4 then Position(2, 6)
    else if level == 5 then Position(9, 7)
    else Position(2, 5)
  }

  function SpawnOf(role: Role, level: int): Position {
    if role == Fish then FishSpawn else CrabSpawn(level)
  }

  function PlayerOf(g: GameState, role: Role): Option<Player> {
    if role == Fish then g.fish else g.crab
  }

  function WithPlayer(g: GameState, role: Role, p: Player): (g': GameState)
    ensures PlayerOf(g', role) == Some(p) && PlayerOf(g', role.Partner()) == PlayerOf(g, role.Partner())
    ensures g'.cave == g.cave && g'.objects == g.objects && g'.completed == g.completed
  {
    if role == Fish then g.(fish := Some(p)) else g.(crab := Some(p))
  }

  /** `placePlayersForCurrentLevel`: each present player is moved to its spawn for the
      level; who is present, their ids and names, and the rest of the world stay. */
  function PlacePlayers(g: GameState, level: int): (g': GameState)
    ensures g'.cave == g.cave && g'.objects == g.objects && g'.completed == g.completed
    ensures forall role: Role :: PlayerOf(g', role).Some? <==> PlayerOf(g, role).Some?
    ensures forall role: Role :: PlayerOf(g, role).Some? ==>
              PlayerOf(g', role).value == PlayerOf(g, role).value.(pos := SpawnOf(role, level))
  {
    var g1 := if g.fish.Some? then g.(fish := Some(g.fish.value.(pos := FishSpawn))) else g;
    if g1.crab.Some? then g1.(crab := Some(g1.crab.value.(pos := CrabSpawn(level)))) else g1
  }

  // ------------------------------------------------------------ map queries

  /** `isWalkable`: anything but a wall; outside the map reads as wall. */
  predicate Walkable(g: GameState, p: Position)
    requires g.cave.Valid()
  {
    GetTile(g.cave, p.x, p.y) != Wall
  }

  predicate IsBlocker(kind: ObjectKind) {
    kind == Box || kind == Rock
  }

  /** `isObjectBlocking`, scanning the objects from index `i` on. */
  function BlockingFrom(objects: seq<GameObject>, p: Position, i: nat): (b: bool)
    requires i <= |objects|
    ensures b <==> exists k | i <= k < |objects| :: objects[k].pos == p && IsBlocker(objects[k].kind)
    decreases |objects| - i
  {
    if i == |objects| then false
    else if objects[i].pos == p && IsBlocker(objects[i].kind) then true
    else BlockingFrom(objects, p, i + 1)
  }

  /** `isObjectBlocking`: a box or a rock stands on the cell. */
  function IsObjectBlocking(objects: seq<GameObject>, p: Position): (b: bool)
    ensures b <==> exists k | 0 <= k < |objects| :: objects[k].pos == p && IsBlocker(objects[k].kind)
  {
    BlockingFrom(objects, p, 0)
  }

  /** `findObjectAt`, scanning from index `i`: the first object of that kind on the cell. */
  function FindFrom(objects: seq<GameObject>, p: Position, kind: ObjectKind, i: nat): (r: Option<nat>)
    requires i <= |objects|
    ensures r.Some? ==> i <= r.value < |objects| && objects[r.value].kind == kind && objects[r.value].pos == p
    ensures r.Some? ==> forall j | i <= j < r.value :: !(objects[j].kind == kind && objects[j].pos == p)
    ensures r.None? ==> forall j | i <= j < |objects| :: !(objects[j].kind == kind && objects[j].pos == p)
    decreases |objects| - i
  {
    if i == |objects| then None
    else if objects[i].kind == kind && objects[i].pos == p then Some(i)
    else FindFrom(objects, p, kind, i + 1)
  }

  /** `findObjectAt`: the index of the first object of that kind on the cell, if any. */
  function FindObjectAt(objects: seq<GameObject>, p: Position, kind: ObjectKind): (r: Option<nat>)
    ensures r.Some? ==> r.value < |objects| && objects[r.value].kind == kind && objects[r.value].pos == p
    ensures r.Some? ==> forall j | 0 <= j < r.value :: !(objects[j].kind == kind && objects[j].pos == p)
    ensures r.None? <==> forall j | 0 <= j < |objects| :: !(objects[j].kind == kind && objects[j].pos == p)
  {
    FindFrom(objects, p, kind, 0)
  }

  // ------------------------------------------------------------- mushrooms

  /** `activateMushroomAt`: every mushroom on the cell becomes active; nothing else changes. */
  function ActivateMushroomAt(objects: seq<GameObject>, p: Position): (r: seq<GameObject>)
    ensures |r| == |objects|
    ensures forall k | 0 <= k < |r| :: r[k].kind == objects[k].kind && r[k].pos == objects[k].pos
    ensures forall k | 0 <= k < |r| ::
              r[k].active == (objects[k].active || (objects[k].kind == Mushroom && objects[k].pos == p))
  {
    seq(|objects|, k requires 0 <= k < |objects| =>
      if objects[k].kind == Mushroom && objects[k].pos == p then objects[k].(active := true) else objects[k])
  }

  /** Activating twice is activating once. */
  lemma ActivateIdempotent(objects: seq<GameObject>, p: Position)
    ensures ActivateMushroomAt(ActivateMushroomAt(objects, p), p) == ActivateMushroomAt(objects, p)
  {
    var once := ActivateMushroomAt(objects, p);
    var twice := ActivateMushroomAt(once, p);
    assert forall k | 0 <= k < |once| :: twice[k] == once[k];
  }

  /** Activation never switches a mushroom off, and it leaves every object that is not a
      mushroom on that cell exactly as it was. */
  lemma ActivateOnlyThere(objects: seq<GameObject>, p: Position, k: nat)
    requires k < |objects|
    ensures objects[k].active ==> ActivateMushroomAt(objects, p)[k].active
    ensures !(objects[k].kind == Mushroom && objects[k].pos == p) ==> ActivateMushroomAt(objects, p)[k] == objects[k]
  {
  }

  // ------------------------------------------------------------- completion

  /** Both players are present and both stand on an exit tile. */
  predicate BothOnExit(g: GameState)
    requires g.cave.Valid()
  {
    && g.fish.Some? && g.crab.Some?
    && GetTile(g.cave, g.fish.value.pos.x, g.fish.value.pos.y) == Exit
    && GetTile(g.cave, g.crab.value.pos.x, g.crab.value.pos.y) == Exit
  }

  /** `checkLevelCompleted` on the world: the flag is latched on once both players stand
      on exits, and never cleared here. (Clearing the votes is the server's part.) */
  function CheckLevelCompleted(g: GameState): (g': GameState)
    requires g.cave.Valid()
    ensures g'.completed <==> g.completed || BothOnExit(g)
    ensures g'.cave == g.cave && g'.fish == g.fish && g'.crab == g.crab && g'.objects == g.objects
  {
    if g.completed then g
    else if BothOnExit(g) then g.(completed := true)
    else g
  }

  // ------------------------------------------------------------------ moves

  /** The crab steps into a box: a push is attempted. */
  predicate PushAttempt(g: GameState, role: Role, target: Position) {
    role == Crab && FindObjectAt(g.objects, target, Box).Some?
  }

  /** A cell a player may step onto, or a box be pushed onto. */
  predicate Free(g: GameState, p: Position)
    requires g.cave.Valid()
  {
    Walkable(g, p) && !IsObjectBlocking(g.objects, p)
  }

  /**
   * The movement part of `handleInput` for the player in `role`, one step along
   * (dx, dy). A crab stepping into a box pushes it: both move one step when the cell
   * beyond is free, otherwise neither does. Any other step succeeds only onto a free
   * cell, and a fish activates the mushrooms of the cell it enters.
   */
  function Move(g: GameState, role: Role, dx: int, dy: int): (g': GameState)
    requires g.cave.Valid() && PlayerOf(g, role).Some?
    ensures g'.cave == g.cave && g'.completed == g.completed && |g'.objects| == |g.objects|
    ensures PlayerOf(g', role.Partner()) == PlayerOf(g, role.Partner())
    ensures
      var p := PlayerOf(g, role).value;
      var t := p.pos.Plus(dx, dy);
      && PlayerOf(g', role).Some?
      && (PlayerOf(g', role).value == p || PlayerOf(g', role).value == p.(pos := t))
      // pushing: the box and the crab both move along the delta, or nothing changes
      && (PushAttempt(g, role, t) ==>
            var k := FindObjectAt(g.objects, t, Box).value;
            var beyond := t.Plus(dx, dy);
            if Free(g, beyond) then
              && PlayerOf(g', role).value == p.(pos := t)
              && g'.objects == g.objects[k := g.objects[k].(pos := beyond)]
            else g' == g)
      // stepping: only onto a free cell
      && (!PushAttempt(g, role, t) ==>
            if Free(g, t) then
              && PlayerOf(g', role).value == p.(pos := t)
              && g'.objects == (if role == Fish then ActivateMushroomAt(g.objects, t) else g.objects)
            else g' == g)
  {
    var p := PlayerOf(g, role).value;
    var t := p.pos.Plus(dx, dy);
    var box := FindObjectAt(g.objects, t, Box);
    if box.Some? && role == Crab then
      var beyond := t.Plus(dx, dy);
      if Walkable(g, beyond) && !IsObjectBlocking(g.objects, beyond) then
        WithPlayer(g.(objects := g.objects[box.value := g.objects[box.value].(pos := beyond)]), role, p.(pos := t))
      else g
    else if Walkable(g, t) && !IsObjectBlocking(g.objects, t) then
      var g1 := WithPlayer(g, role, p.(pos := t));
      if role == Fish then g1.(objects := ActivateMushroomAt(g1.objects, t)) else g1
    else g
  }

  /** A fish never enters a cell holding a box or a rock. */
  lemma FishNeverEntersBlocker(g: GameState, dx: int, dy: int)
    requires g.cave.Valid() && g.fish.Some?
    requires IsObjectBlocking(g.objects, g.fish.value.pos.Plus(dx, dy))
    ensures Move(g, Fish, dx, dy) == g
  {
  }

  // ------------------------------------------------------------- soundness

  /** Boxes and rocks never share a cell. */
  predicate BlockersApart(objects: seq<GameObject>) {
    forall k, j | 0 <= k < |objects| && 0 <= j < |objects| && k != j
      && IsBlocker(objects[k].kind) && IsBlocker(objects[j].kind) :: objects[k].pos != objects[j].pos
  }

  /** A sensible world: each slot holds a player of its role, nobody and nothing stands
      on a wall (so on the map), and no two blocking objects share a cell. */
  predicate Sound(g: GameState) {
    && g.cave.Valid()
    && (g.fish.Some? ==> g.fish.value.role == Fish && Walkable(g, g.fish.value.pos))
    && (g.crab.Some? ==> g.crab.value.role == Crab && Walkable(g, g.crab.value.pos))
    && (forall k | 0 <= k < |g.objects| :: Walkable(g, g.objects[k].pos))
    && BlockersApart(g.objects)
  }

  /** A freshly loaded level is sound: objects sit on floor cells, each on its own cell. */
  lemma LoadLevelSound(rows: Level)
    requires ValidLevel(rows)
    ensures Sound(LoadLevel(rows))
  {
    var g := LoadLevel(rows);
    forall k | 0 <= k < |g.objects|
      ensures Walkable(g, g.objects[k].pos)
    {
      var p := g.objects[k].pos;
      assert PlacedBy(rows, g.objects[k]);
      assert rows[p.y][p.x] == 'M' || rows[p.y][p.x] == 'B';
    }
    forall k, j | 0 <= k < |g.objects| && 0 <= j < |g.objects| && k != j
      ensures g.objects[k].pos != g.objects[j].pos
    {
      if k < j {
        assert Before(g.objects[k].pos, g.objects[j].pos);
      } else {
        assert Before(g.objects[j].pos, g.objects[k].pos);
      }
    }
  }

  /** A step keeps the world sound: the mover lands on a floor cell (a pushed box's
      old cell is one), a pushed box lands on a free cell, and nothing else moves. */
  lemma MoveSound(g: GameState, role: Role, dx: int, dy: int)
    requires Sound(g) && PlayerOf(g, role).Some? && PlayerOf(g, role).value.role == role
    ensures Sound(Move(g, role, dx, dy))
  {
    var g' := Move(g, role, dx, dy);
    var p := PlayerOf(g, role).value;
    var t := p.pos.Plus(dx, dy);
    if PushAttempt(g, role, t) {
      var k := FindObjectAt(g.objects, t, Box).value;
      var beyond := t.Plus(dx, dy);
      if Free(g, beyond) {
        assert Walkable(g, g.objects[k].pos);
        assert forall j | 0 <= j < |g.objects| && IsBlocker(g.objects[j].kind) :: g.objects[j].pos != beyond;
      }
    }
  }

  /** Whoever moves never ends a step on a box or a rock. */
  lemma MoverNeverOnBlocker(g: GameState, role: Role, dx: int, dy: int)
    requires Sound(g) && PlayerOf(g, role).Some?
    requires PlayerOf(Move(g, role, dx, dy), role) != PlayerOf(g, role)
    ensures !IsObjectBlocking(Move(g, role, dx, dy).objects, PlayerOf(Move(g, role, dx, dy), role).value.pos)
  {
    var g' := Move(g, role, dx, dy);
    var p := PlayerOf(g, role).value;
    var t := p.pos.Plus(dx, dy);
    assert PlayerOf(g', role).value.pos == t;
    if PushAttempt(g, role, t) {
      var k := FindObjectAt(g.objects, t, Box).value;
      forall j | 0 <= j < |g'.objects| && g'.objects[j].pos == t
        ensures !IsBlocker(g'.objects[j].kind)
      {
        assert j != k;
        assert g.objects[j] == g'.objects[j];
      }
    }
  }

  /** Players do not block a push: in a 4×1 corridor holding crab, box and fish in that
      order, the crab's step right shoves the box onto the fish's cell, and the world
      stays sound while a box and the fish share that cell. */
  lemma PushOntoPartner()
    ensures
      var g := GameState(New(4, 1), Some(Player("f", "Fish", Fish, Position(2, 0))),
                         Some(Player("c", "Crab", Crab, Position(0, 0))),
                         [GameObject(Box, Position(1, 0), false)], false);
      var g' := Move(g, Crab, 1, 0);
      && Sound(g) && Sound(g')
      && g'.crab.value.pos == Position(1, 0)
      && g'.objects[0].kind == Box && g'.objects[0].pos == g'.fish.value.pos
  {
    var g := GameState(New(4, 1), Some(Player("f", "Fish", Fish, Position(2, 0))),
                       Some(Player("c", "Crab", Crab, Position(0, 0))),
                       [GameObject(Box, Position(1, 0), false)], false);
    assert FindObjectAt(g.objects, Position(1, 0), Box) == Some(0);
    assert Free(g, Position(2, 0));
    MoveSound(g, Crab, 1, 0);
  }
}
