/**
 * The outward face of `GameEngine`: `initializeGame`, one `update`, the key
 * handlers, `togglePause` and `restart`, with the engine's invariant kept by
 * every one of them.
 */
module Game {
  import opened Geometry
  import opened Seqs
  import opened Objects
  import opened World
  import Tanks
  import Factory
  import Arena
  import Phases
  import Respawn
  import Collisions
  import Events

  // ----- initializeGame -----

  /**
   * The draws of `initializeGame`: the first heading of each wandering
   * enemy (drawn by its strategy's constructor) and those of the med pack
   * placement.
   */
  datatype InitDraws = InitDraws(wanderStart: nat -> Direction, spawn: Respawn.SpawnDraws)

  /** `createEnemyTanks`: the six enemies at their spawn points, chasing at even positions. */
  function InitialEnemies(wanderStart: nat -> Direction): (ts: seq<Tanks.Tank>)
    ensures |ts| == Arena.INITIAL_ENEMY_COUNT
    ensures forall i :: 0 <= i < |ts| ==>
              && ts[i].box == Arena.TankBox(Arena.EnemySpawns()[i].0, Arena.EnemySpawns()[i].1)
              && ts[i].active && ts[i].health == Tanks.MAX_HEALTH && !ts[i].isPlayer
              && (ts[i].strategy.Aggressive? <==> Arena.IsAggressive(i))
  {
    var spawns := Arena.EnemySpawns();
    var ts := seq(Arena.INITIAL_ENEMY_COUNT, i requires 0 <= i < Arena.INITIAL_ENEMY_COUNT =>
                Factory.CreateEnemyTank(spawns[i].0, spawns[i].1, Arena.IsAggressive(i), wanderStart(i)));
    assert forall i :: 0 <= i < |ts| ==> ts[i] == Factory.CreateEnemyTank(spawns[i].0, spawns[i].1, Arena.IsAggressive(i), wanderStart(i));
    ts
  }

  /**
   * The engine before its med packs are placed: the player's tank, the
   * enemies and the walls, listed in `allObjects` in that order, with 0
   * points and 3 lives.
   */
  function Setup(events: seq<Events.Notice>, keys: set<Key>, wanderStart: nat -> Direction): (r: Engine)
    ensures r.state == Playing && r.score == 0 && r.lives == Arena.INITIAL_LIVES && r.nextId == 0
    ensures r.missiles == [] && r.medPacks == [] && r.explosions == []
    ensures r.player == Factory.CreatePlayerTank(Arena.PLAYER_SPAWN_X, Arena.PLAYER_SPAWN_Y)
    ensures r.enemies == InitialEnemies(wanderStart) && r.walls == Arena.WallLayout()
    ensures |r.all| == 1 + |r.enemies| + |r.walls| && r.all[0] == PlayerRef
    ensures forall i :: 0 <= i < |r.enemies| ==> r.all[1 + i] == EnemyRef(i)
    ensures forall i :: 0 <= i < |r.walls| ==> r.all[1 + |r.enemies| + i] == WallRef(i)
    ensures r.events == events && r.keys == keys
  {
    var walls := Arena.WallLayout();
    Engine(Factory.CreatePlayerTank(Arena.PLAYER_SPAWN_X, Arena.PLAYER_SPAWN_Y), InitialEnemies(wanderStart),
           [], walls, [], [],
           [PlayerRef] + EnemyRefs(Arena.INITIAL_ENEMY_COUNT) + WallRefs(|walls|),
           0, Arena.INITIAL_LIVES, Playing, 0, events, keys)
  }

  /**
   * `initializeGame`: a new game in play. The notices emitted so far and the
   * keys held are the engine's own and survive it.
   */
  function Init(events: seq<Events.Notice>, keys: set<Key>, d: InitDraws): (r: Engine)
    ensures r.state == Playing && r.score == 0 && r.lives == Arena.INITIAL_LIVES
    ensures r.missiles == [] && r.explosions == [] && r.walls == Arena.WallLayout()
    ensures r.player == Factory.CreatePlayerTank(Arena.PLAYER_SPAWN_X, Arena.PLAYER_SPAWN_Y)
    ensures r.enemies == InitialEnemies(d.wanderStart)
    ensures |r.medPacks| <= Respawn.MIN_PACKS + d.spawn.extra
    ensures forall i :: 0 <= i < |r.medPacks| ==> r.medPacks[i].active
    ensures r.events == events && r.keys == keys
  {
    Respawn.RespawnMedPacks(Setup(events, keys, d.wanderStart), d.spawn)
  }

  /** A tank box clear of the course is clear of every wall built from it. */
  lemma ClearOfLayout(b: Box)
    requires Arena.ClearSpot(b)
    ensures InsideMap(b, Arena.MAP_WIDTH, Arena.MAP_HEIGHT)
    ensures forall w :: w in Arena.WallLayout() ==> !Intersects(b, w.box)
  {
    var ws := Arena.WallLayout();
    forall w | w in ws ensures !Intersects(b, w.box) {
      var i :| 0 <= i < |ws| && ws[i] == w;
      assert w.box == Arena.Course()[i];
    }
  }

  /** The setup satisfies every part of the invariant. */
  lemma SetupValid(events: seq<Events.Notice>, keys: set<Key>, wanderStart: nat -> Direction)
    ensures Valid(Setup(events, keys, wanderStart))
  {
    var e := Setup(events, keys, wanderStart);
    Arena.PlayerSpawnIsClear();
    Arena.EnemySpawnsAreClear();
    ClearOfLayout(Arena.TankBox(Arena.PLAYER_SPAWN_X, Arena.PLAYER_SPAWN_Y));
    assert e.player.box == Arena.TankBox(Arena.PLAYER_SPAWN_X, Arena.PLAYER_SPAWN_Y);
    forall i | 0 <= i < |e.enemies| ensures Placed(e.enemies[i], e.walls) {
      ClearOfLayout(Arena.TankBox(Arena.EnemySpawns()[i].0, Arena.EnemySpawns()[i].1));
    }
    assert Destroyed(e.enemies) == 0;
    assert MissileRefs([]) == [] && PackRefs([]) == [] && ExplosionRefs([]) == [];
  }

  /** `initializeGame` starts the engine in a state satisfying its invariant. */
  lemma InitValid(events: seq<Events.Notice>, keys: set<Key>, d: InitDraws)
    ensures Valid(Init(events, keys, d))
  {
    var e := Setup(events, keys, d.wanderStart);
    SetupValid(events, keys, d.wanderStart);
    Respawn.RespawnKeepsSync(e, d.spawn);
    Respawn.RespawnKeepsFresh(e, d.spawn);
    Respawn.RespawnKeepsPlaced(e, d.spawn);
  }

  // ----- update -----

  /** The draws of one update: each enemy's turn, and the med pack placement should the map run out. */
  datatype TickDraws = TickDraws(enemy: nat -> Phases.EnemyDraws, spawn: Respawn.SpawnDraws)

  /**
   * The phases of `update` that move things: the player's input and
   * cooldown, the enemies' turns, the missile and explosion sweeps and the
   * med pack pulse.
   */
  function Maneuver(e: Engine, enemy: nat -> Phases.EnemyDraws): (r: Engine)
    ensures r == e.(player := r.player, enemies := r.enemies, missiles := r.missiles, medPacks := r.medPacks,
                    explosions := r.explosions, all := r.all, nextId := r.nextId)
    ensures |r.enemies| == |e.enemies|
  {
    var e1 := Phases.HandleInput(e);
    var e2 := e1.(player := Tanks.Update(e1.player));
    var e3 := Phases.EnemiesFrom(e2, enemy, 0);
    var e4 := Phases.UpdateExplosions(Phases.SweepMissiles(e3));
    e4.(medPacks := Phases.PulseAll(e4.medPacks))
  }

  /** New med packs are placed only when the map has none left. */
  function Restock(e: Engine, spawn: Respawn.SpawnDraws): (r: Engine)
    ensures e.medPacks != [] ==> r == e
    ensures r == e.(medPacks := r.medPacks, all := r.all, nextId := r.nextId)
  {
    if e.medPacks == [] then Respawn.RespawnMedPacks(e, spawn) else e
  }

  /**
   * `update`: nothing unless the game is in play; otherwise the moving
   * phases, the med pack restock, `checkCollisions` and
   * `checkGameConditions`, in that order.
   */
  function Tick(e: Engine, d: TickDraws): (r: Engine)
    ensures e.state != Playing ==> r == e
    ensures r.walls == e.walls && |r.enemies| == |e.enemies| && r.keys == e.keys
  {
    if e.state != Playing then e
    else Collisions.Conditions(Collisions.CheckCollisions(Restock(Maneuver(e, d.enemy), d.spawn)))
  }

  /** The moving phases keep the engine valid. */
  lemma {:induction false} ManeuverKeepsValid(e: Engine, enemy: nat -> Phases.EnemyDraws)
    requires Valid(e)
    ensures Valid(Maneuver(e, enemy))
  {
    var e1 := Phases.HandleInput(e);
    Phases.HandleInputKeepsValid(e);
    var e2 := e1.(player := Tanks.Update(e1.player));
    Phases.ReplaceTankKeepsValid(e1, PlayerRef, Tanks.Update(e1.player));
    assert e2 == Phases.WithTank(e1, PlayerRef, Tanks.Update(e1.player));
    var e3 := Phases.EnemiesFrom(e2, enemy, 0);
    Phases.EnemiesFromKeepsValid(e2, enemy, 0);
    var e4 := Phases.SweepMissiles(e3);
    Phases.SweepMissilesKeepsValid(e3);
    Phases.UpdateExplosionsKeepsValid(e4);
    Phases.PulseKeepsValid(Phases.UpdateExplosions(e4));
  }

  /** The restock keeps the engine valid. */
  lemma RestockKeepsValid(e: Engine, spawn: Respawn.SpawnDraws)
    requires Valid(e)
    ensures Valid(Restock(e, spawn))
  {
    if e.medPacks == [] {
      Respawn.RespawnKeepsSync(e, spawn);
      Respawn.RespawnKeepsFresh(e, spawn);
      Respawn.RespawnKeepsPlaced(e, spawn);
    }
  }

  /** `checkCollisions` in play keeps the engine valid. */
  lemma CheckCollisionsKeepsValid(e: Engine)
    requires Valid(e) && e.state == Playing
    ensures Valid(Collisions.CheckCollisions(e)) && Collisions.CheckCollisions(e).state == Playing
  {
    var r := Collisions.CheckCollisions(e);
    Collisions.CheckCollisionsKeepsInvariant(e);
    Collisions.CheckCollisionsFights(e);
    assert r.walls == e.walls && |r.enemies| == |e.enemies|;
  }

  /** `update` keeps the engine valid. */
  lemma TickKeepsValid(e: Engine, d: TickDraws)
    requires Valid(e)
    ensures Valid(Tick(e, d))
  {
    if e.state == Playing {
      var e1 := Maneuver(e, d.enemy);
      ManeuverKeepsValid(e, d.enemy);
      var e2 := Restock(e1, d.spawn);
      RestockKeepsValid(e1, d.spawn);
      var e3 := Collisions.CheckCollisions(e2);
      CheckCollisionsKeepsValid(e2);
      Collisions.ConditionsKeepLedger(e3);
    }
  }

  /**
   * The verdict after an update in play: lost exactly when no life is
   * left, won exactly when lives remain and every enemy is destroyed, in
   * play otherwise. Winning and losing in the same update ends in a loss.
   */
  lemma TickDecides(e: Engine, d: TickDraws)
    requires Valid(e) && e.state == Playing
    ensures Tick(e, d).state == Lost <==> Tick(e, d).lives == 0
    ensures Tick(e, d).state == Won <==> Tick(e, d).lives > 0 && Collisions.NoneActive(Tick(e, d).enemies)
    ensures Tick(e, d).state == Playing <==> Tick(e, d).lives > 0 && !Collisions.NoneActive(Tick(e, d).enemies)
  {
    var e2 := Restock(Maneuver(e, d.enemy), d.spawn);
    ManeuverKeepsValid(e, d.enemy);
    RestockKeepsValid(Maneuver(e, d.enemy), d.spawn);
    CheckCollisionsKeepsValid(e2);
    Collisions.ConditionsDecide(Collisions.CheckCollisions(e2));
  }

  /** An update never lowers the score, never gives back a life and only appends notices. */
  lemma TickProgresses(e: Engine, d: TickDraws)
    ensures Collisions.Progressed(e, Tick(e, d))
  {
    if e.state == Playing {
      var e2 := Restock(Maneuver(e, d.enemy), d.spawn);
      var e3 := Collisions.CheckCollisions(e2);
      Collisions.CheckCollisionsProgresses(e2);
      PrefixTransitive(e.events, e3.events, Collisions.Conditions(e3).events);
    }
  }

  // ----- keys, pause and restart -----

  /** `togglePause`: in play pauses, paused resumes, a finished game stays finished. */
  function TogglePause(e: Engine): (r: Engine)
    ensures r == e.(state := r.state)
    ensures r.state == Paused <==> e.state == Playing
    ensures r.state == Playing <==> e.state == Paused
    ensures e.state == Won || e.state == Lost ==> r.state == e.state
  {
    match e.state
    case Playing => e.(state := Paused)
    case Paused => e.(state := Playing)
    case _ => e
  }

  /** `restart`: a new game, keeping the notices emitted and the keys held. */
  function Restart(e: Engine, d: InitDraws): (r: Engine)
    ensures Valid(r) && r.state == Playing && r.events == e.events && r.keys == e.keys
  {
    InitValid(e.events, e.keys, d);
    Init(e.events, e.keys, d)
  }

  /**
   * `keyPressed`: the key is remembered as held; Escape toggles the pause,
   * and R restarts a finished game.
   */
  function KeyPressed(e: Engine, code: Key, d: InitDraws): (r: Engine)
    ensures r.keys == e.keys + {code}
    ensures code != KeyEscape && code != KeyR ==> r == e.(keys := e.keys + {code})
    ensures code == KeyEscape ==> r == TogglePause(e).(keys := e.keys + {code})
    ensures code == KeyR && (e.state == Won || e.state == Lost) ==> r == Restart(e.(keys := e.keys + {code}), d)
    ensures code == KeyR && !(e.state == Won || e.state == Lost) ==> r == e.(keys := e.keys + {code})
  {
    var e1 := e.(keys := e.keys + {code});
    var e2 := if code == KeyEscape then TogglePause(e1) else e1;
    if code == KeyR && (e2.state == Won || e2.state == Lost) then Restart(e2, d) else e2
  }

  /** `keyReleased`: the key is no longer held; nothing else changes. */
  function KeyReleased(e: Engine, code: Key): (r: Engine)
    ensures code !in r.keys && r == e.(keys := r.keys)
    ensures forall k :: k != code ==> (k in r.keys <==> k in e.keys)
  {
    e.(keys := e.keys - {code})
  }

  /** The key handlers keep the engine valid. */
  lemma KeysKeepValid(e: Engine, code: Key, d: InitDraws)
    requires Valid(e)
    ensures Valid(KeyPressed(e, code, d)) && Valid(KeyReleased(e, code))
  {
    var r := KeyPressed(e, code, d);
    if !(code == KeyR && (e.state == Won || e.state == Lost)) {
      assert Shaped(r) && Synced(r) && Fresh(r) && TanksPlaced(r) && TanksVital(r);
      assert PacksPlaced(r.medPacks, r.walls);
    }
  }

  /** Pressing Escape twice, in play or paused, gives back the game as it was, Escape held. */
  lemma EscapeTwiceResumes(e: Engine, d: InitDraws)
    requires e.state == Playing || e.state == Paused
    ensures KeyPressed(KeyPressed(e, KeyEscape, d), KeyEscape, d) == e.(keys := e.keys + {KeyEscape})
  {
    var e1 := KeyPressed(e, KeyEscape, d);
    assert e1.state != e.state && (e1.state == Playing || e1.state == Paused);
  }

  /** Pressing and releasing a key the engine does not act on leaves it as it was. */
  lemma PressReleaseRestores(e: Engine, code: Key, d: InitDraws)
    requires code != KeyEscape && code != KeyR && code !in e.keys
    ensures KeyReleased(KeyPressed(e, code, d), code) == e
  {
    assert (e.keys + {code}) - {code} == e.keys;
  }

  // ----- a run of updates -----

  /** One update per entry of `ds`, in order. */
  function Run(e: Engine, ds: seq<TickDraws>): (r: Engine)
    ensures r.walls == e.walls && r.keys == e.keys && |r.enemies| == |e.enemies|
    decreases |ds|
  {
    if ds == [] then e else Run(Tick(e, ds[0]), ds[1..])
  }

  /** The invariant holds after any number of updates. */
  lemma {:induction false} RunKeepsValid(e: Engine, ds: seq<TickDraws>)
    requires Valid(e)
    ensures Valid(Run(e, ds))
    decreases |ds|
  {
    if ds != [] {
      TickKeepsValid(e, ds[0]);
      RunKeepsValid(Tick(e, ds[0]), ds[1..]);
    }
  }

  /** Over any number of updates the score never drops, lives never return and notices are only appended. */
  lemma {:induction false} RunProgresses(e: Engine, ds: seq<TickDraws>)
    ensures Collisions.Progressed(e, Run(e, ds))
    decreases |ds|
  {
    if ds != [] {
      var e1 := Tick(e, ds[0]);
      TickProgresses(e, ds[0]);
      RunProgresses(e1, ds[1..]);
      PrefixTransitive(e.events, e1.events, Run(e1, ds[1..]).events);
    }
  }

  /** While paused or finished, updates change nothing. */
  lemma {:induction false} StoppedGameFrozen(e: Engine, ds: seq<TickDraws>)
    requires e.state != Playing
    ensures Run(e, ds) == e
    decreases |ds|
  {
    if ds != [] {
      StoppedGameFrozen(Tick(e, ds[0]), ds[1..]);
    }
  }

  /** A finished game stays finished, whatever the updates. */
  lemma {:induction false} FinishedStaysFinished(e: Engine, ds: seq<TickDraws>)
    requires e.state == Won || e.state == Lost
    ensures Run(e, ds).state == e.state
  {
    StoppedGameFrozen(e, ds);
  }
}
