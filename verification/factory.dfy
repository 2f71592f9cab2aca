/**
 * `GameObjectFactory`: the one place game objects are made. The player's tank
 * is fast and steered by the keyboard; an enemy's tank is slow and steered by
 * its own wandering or chasing strategy. Identities of missiles, med packs and
 * explosions (`id`) are handed in by the engine.
 */
module Factory {
  import opened Geometry
  import opened Strategies
  import Tanks
  import Walls
  import MedPacks
  import Explosions
  import Wander
  import Chase
  import Wrappers
  import Steering

  const PLAYER_SPEED: real := 3.5
  const ENEMY_SPEED: real := 1.0

  /** `createPlayerTank`: an active, full-health player tank at (x, y) facing Up, driven by no strategy of its own. */
  function CreatePlayerTank(x: real, y: real): (t: Tanks.Tank)
    ensures t.box == Box(x, y, Tanks.TANK_SIZE, Tanks.TANK_SIZE)
    ensures t.active && t.health == Tanks.MAX_HEALTH && t.cooldown == 0
    ensures t.isPlayer && t.facing == Up && t.speed == PLAYER_SPEED
    ensures t.strategy == PlayerControl
  {
    Tanks.New(x, y, Up, PlayerControl, PLAYER_SPEED, true)
  }

  /**
   * `createEnemyTank`: an active, full-health enemy tank at (x, y) facing Down,
   * chasing when `aggressive` and wandering otherwise. A wandering strategy
   * starts out in the heading `wanderStart` its constructor draws.
   */
  function CreateEnemyTank(x: real, y: real, aggressive: bool, wanderStart: Direction): (t: Tanks.Tank)
    ensures t.box == Box(x, y, Tanks.TANK_SIZE, Tanks.TANK_SIZE)
    ensures t.active && t.health == Tanks.MAX_HEALTH && t.cooldown == 0
    ensures !t.isPlayer && t.facing == Down && t.speed == ENEMY_SPEED
    ensures aggressive ==> t.strategy == Aggressive(Chase.Init())
    ensures !aggressive ==> t.strategy == Random(Wander.Init(wanderStart))
  {
    var strategy := if aggressive then Aggressive(Chase.Init()) else Random(Wander.Init(wanderStart));
    Tanks.New(x, y, Down, strategy, ENEMY_SPEED, false)
  }

  /** `createWall`: an active wall occupying exactly the given rectangle. */
  function CreateWall(x: real, y: real, w: real, h: real): (r: Walls.Wall)
    ensures r.box == Box(x, y, w, h) && r.active
  {
    Walls.New(x, y, w, h)
  }

  /** `createMedPack`: an active 30 x 30 pack with its top-left corner at (x, y). */
  function CreateMedPack(id: nat, x: real, y: real): (p: MedPacks.MedPack)
    ensures p.id == id && p.box == Box(x, y, MedPacks.MEDPACK_SIZE, MedPacks.MEDPACK_SIZE) && p.active
  {
    MedPacks.New(id, x, y)
  }

  /** `createExplosion`: an explosion centred on (cx, cy), at its first frame. */
  function CreateExplosion(id: nat, cx: real, cy: real): (e: Explosions.Explosion)
    ensures e.id == id && e.active && e.frame == 0
    ensures e.box.CenterX() == cx && e.box.CenterY() == cy
  {
    Explosions.New(id, cx, cy)
  }

  /**
   * Who steers: the player's tank never gets a heading from its strategy,
   * while an enemy's strategy always produces one, whatever it observes.
   */
  lemma SteeringBySide(x: real, y: real, aggressive: bool, start: Direction,
                       me: Box, opponent: Wrappers.Option<Steering.Opponent>, d: Draws)
    ensures NextMove(CreatePlayerTank(x, y).strategy, me, opponent, d).1.None?
    ensures NextMove(CreateEnemyTank(x, y, aggressive, start).strategy, me, opponent, d).1.Some?
  {
  }

  /** The player's tank covers 3.5 times the ground of an enemy's tank in one step. */
  lemma PlayerOutpacesEnemies(x: real, y: real, aggressive: bool, start: Direction, d: Direction)
    ensures var p := CreatePlayerTank(x, y);
            var e := CreateEnemyTank(x, y, aggressive, start);
            && Tanks.Candidate(p, d).x - x == 3.5 * (Tanks.Candidate(e, d).x - x)
            && Tanks.Candidate(p, d).y - y == 3.5 * (Tanks.Candidate(e, d).y - y)
  {
  }
}
