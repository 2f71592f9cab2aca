/**
 * The fixed arena of `GameEngine`: the 1000 x 800 map, the starting lives,
 * the spawn points of the player and the six enemies, and the seventeen-wall
 * obstacle course.
 */
module Arena {
  import opened Geometry
  import Walls
  import Tanks
  import Factory

  const MAP_WIDTH: real := 1000.0
  const MAP_HEIGHT: real := 800.0
  const INITIAL_ENEMY_COUNT: nat := 6
  const INITIAL_LIVES: int := 3
  /** Per-update chance that an active enemy tries to fire. */
  const ENEMY_FIRE_RATE: real := 0.01
  const WALL_SIZE: real := 40.0

  /** Where the player's tank appears, at the start and after each lost life. */
  const PLAYER_SPAWN_X: real := MAP_WIDTH / 2.0
  const PLAYER_SPAWN_Y: real := MAP_HEIGHT - 100.0

  /** The six enemy spawn points, in list order. */
  function EnemySpawns(): (s: seq<(real, real)>)
    ensures |s| == INITIAL_ENEMY_COUNT
  {
    [(150.0, 100.0), (500.0, 100.0), (850.0, 100.0), (200.0, 500.0), (800.0, 500.0), (500.0, 650.0)]
  }

  /** Enemies at even positions of the list chase; the others wander. */
  predicate IsAggressive(i: nat) {
    i % 2 == 0
  }

  /** The boxes of the obstacle course, in the order the walls are created. */
  function Course(): (bs: seq<Box>)
    ensures |bs| == 17
  {
    var s := WALL_SIZE;
    [ // top row
      Box(150.0, 150.0, s * 2.0, s), Box(350.0, 150.0, s * 2.0, s), Box(550.0, 150.0, s * 2.0, s),
      Box(750.0, 150.0, s * 2.0, s),
      // left side
      Box(100.0, 250.0, s, s * 3.0), Box(100.0, 450.0, s, s * 2.0),
      // right side
      Box(860.0, 250.0, s, s * 3.0), Box(860.0, 450.0, s, s * 2.0),
      // centre maze
      Box(250.0, 300.0, s * 3.0, s), Box(650.0, 300.0, s * 3.0, s), Box(450.0, 250.0, s, s * 4.0),
      // middle row
      Box(200.0, 450.0, s * 2.0, s), Box(700.0, 450.0, s * 2.0, s),
      // bottom row
      Box(300.0, 600.0, s * 2.0, s), Box(600.0, 600.0, s * 2.0, s),
      // cover points
      Box(350.0, 500.0, s, s), Box(600.0, 500.0, s, s)
    ]
  }

  /** The walls of the course, each made by `createWall` from its box. */
  function WallLayout(): (ws: seq<Walls.Wall>)
    ensures |ws| == |Course()|
    ensures forall i :: 0 <= i < |ws| ==> ws[i].box == Course()[i] && ws[i].active
  {
    seq(|Course()|, i requires 0 <= i < |Course()| =>
      Factory.CreateWall(Course()[i].x, Course()[i].y, Course()[i].w, Course()[i].h))
  }

  /** Every wall of the course has a positive size and lies inside the map. */
  lemma CourseInsideMap()
    ensures forall i :: 0 <= i < |Course()| ==>
              Course()[i].w > 0.0 && Course()[i].h > 0.0 && InsideMap(Course()[i], MAP_WIDTH, MAP_HEIGHT)
  {
  }

  /** A 40 x 40 tank box with its top-left corner at (x, y). */
  function TankBox(x: real, y: real): Box {
    Box(x, y, Tanks.TANK_SIZE, Tanks.TANK_SIZE)
  }

  /** A tank box lies inside the map and overlaps no wall of the course. */
  predicate ClearSpot(b: Box) {
    InsideMap(b, MAP_WIDTH, MAP_HEIGHT) && forall i :: 0 <= i < |Course()| ==> !Intersects(b, Course()[i])
  }

  /** The player's spawn point is inside the map and clear of every wall. */
  lemma PlayerSpawnIsClear()
    ensures ClearSpot(TankBox(PLAYER_SPAWN_X, PLAYER_SPAWN_Y))
  {
  }

  /** Every enemy spawn point is inside the map and clear of every wall. */
  lemma EnemySpawnsAreClear()
    ensures forall i :: 0 <= i < |EnemySpawns()| ==> ClearSpot(TankBox(EnemySpawns()[i].0, EnemySpawns()[i].1))
  {
  }

  /** No two spawned tanks, the player's included, overlap. */
  lemma SpawnsApart()
    ensures forall i :: 0 <= i < |EnemySpawns()| ==>
              !Intersects(TankBox(EnemySpawns()[i].0, EnemySpawns()[i].1), TankBox(PLAYER_SPAWN_X, PLAYER_SPAWN_Y))
    ensures forall i, j :: 0 <= i < j < |EnemySpawns()| ==>
              !Intersects(TankBox(EnemySpawns()[i].0, EnemySpawns()[i].1), TankBox(EnemySpawns()[j].0, EnemySpawns()[j].1))
  {
  }
}
