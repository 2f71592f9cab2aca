# TankGame engine in Dafny

This project models the simulation core of TankGame. TankGame is a top-down tank game written in Java. The player's tank fights six enemy tanks on a 1000 x 800 map that holds a fixed course of seventeen walls. Tanks move, fire missiles and take 25 damage per hit. Med packs restore a tank to full health, and destroyed tanks leave an explosion. The game is won when every enemy is destroyed and lost when the player's last life is gone. Enemies steer themselves with one of two movement strategies:

- a wandering one, `RandomMovementStrategy`;
- a chasing one, `AggressiveMovementStrategy`.

Both are counter-driven state machines. They detect being stuck, recover along an escalating ladder and break out of oscillations.

The model is functional. Entities are immutable records. The engine is one record (`World.Engine`) that holds:

- the player's tank and the lists of enemies, missiles, walls, med packs and explosions;
- `allObjects` as a sequence of references;
- the score, the lives and the game state;
- the counter that hands out object identities;
- the log of notifications and the set of held keys.

Each engine operation is a pure function from engine to engine. Every `java.util.Random` draw is an explicit argument. For a strategy the draws come in a `Draws` record; for the engine they are functions from enemy index, pack index and attempt number to the draw.

Modules follow the source:

- `Geometry` models `GameObject`'s box, overlap test and centre, plus `Direction`.
- `Objects` holds object references and the obstacle test of `Tank.move`.
- `Tanks`, `Missiles`, `Walls`, `MedPacks` and `Explosions` model one entity class each.
- `Steering`, `Wander`, `Chase` and `Strategies` model the movement strategies.
- `Factory` models `GameObjectFactory`.
- `Arena` holds the map constants, the spawn points and the wall course.
- `Events` models `GameEventManager`.
- `World`, `Respawn`, `Phases`, `Collisions` and `Game` model `GameEngine`: the invariant, the med pack respawn, the phases of `update`, `checkCollisions` and the state machine.
- `Seqs`, `Loops` and `Wrappers` are list utilities, a bounded iteration and `Option`.

## The engine invariant

`World.Valid` is the invariant that every public engine operation preserves. It has seven parts:

- **Shaped**: there are six enemies, all walls stand, and the player's spawn point is clear.
- **Synced**: `allObjects` holds exactly the player, the enemies, the walls and every listed missile, med pack and explosion, counted as a multiset.
- **Fresh**: object identities are increasing and below the next one to be handed out.
- **TanksPlaced**: every tank lies inside the map and overlaps no wall.
- **TanksVital**: health lies in [0, 100], and a tank is active exactly while its health is positive.
- **Ledger**: the score is 10 times the number of destroyed enemies, lives lie in [0, 3], the player is active exactly while lives remain, WON means every enemy is destroyed, and LOST means no lives remain.
- **PacksPlaced**: every med pack lies in the spawn area, off every wall, and at least 180 from every other pack.

`Game.InitValid`, `Game.TickKeepsValid`, `Game.KeysKeepValid` and `Game.RunKeepsValid` prove it for the start of a game, one update, key events and any sequence of updates.

## Where the program departs from what one might expect

The model follows the code throughout. These behaviours of the code are modelled as written:

- **Wall hits.** A missile that hits a wall is switched off, but the tank check in the same round does not look at the flag again. The missile can still damage a tank (`Collisions.MissileSides`).
- **Win and loss in one update.** `GAME_WON` and `GAME_LOST` can both be emitted in the same update. The loss check runs second, so the state ends as LOST (`Collisions.Conditions`).
- **Arena bounds.** Every active tank stays inside the map. A missile is spawned 10 above a tank facing up, so one fired at the top edge starts outside the map. An explosion is centred on the destroyed tank and can extend past the edge. The model proves the bound for tanks (`Tanks.MoveKeepsPlacement`).
- **Respawn overlap.** A respawned player's tank may overlap an enemy or a missile at the spawn point. Only the walls are guaranteed clear.
- **`TANK_DESTROYED`.** This event tag exists but is never emitted.
- **Med pack spacing.** Spacing is measured between top-left corners (`getX`/`getY`). Med packs are all 30 x 30, so this equals the distance between centres. Spacing is checked against every pack on the map, not only those of the current batch.
- **Restart.** A restart keeps the held keys and the notification log, because both belong to the engine rather than to `initializeGame`. The model's identity counter restarts at 0.
- **Unused random source.** `createEnemyTanks` builds a `Random` and never uses it.

## Model

| member | source | states |
|---|---|---|
| Seqs.IndexOf | src/main/java/com/tankgame/core/GameEngine.java:303 | The position `List.remove` looks for: the first element equal to the target, no earlier element equal, and the length exactly when the target is absent |
| Seqs.RemoveFirst | src/main/java/com/tankgame/core/GameEngine.java:303 | `List.remove(x)` leaves the list unchanged when x is absent. Otherwise it removes exactly the first occurrence: one shorter, the part before and the part after it kept in order, the multiset losing one x |
| Seqs.RemoveAll | src/main/java/com/tankgame/core/GameEngine.java:417 | `removeIf` on a reference leaves no occurrence of it and keeps the count of every other element |
| Seqs.RemoveEach | src/main/java/com/tankgame/core/GameEngine.java:300-309 | Removing a batch of references that are all present takes exactly that batch, as a multiset, out of the list |
| Geometry.Dx | src/main/java/com/tankgame/model/Tank.java:50-51 | A direction's x step is 0 for UP and DOWN, positive exactly for RIGHT, negative exactly for LEFT, and at most 1 in size |
| Geometry.Dy | src/main/java/com/tankgame/model/Tank.java:50-51 | A direction's y step is 0 for LEFT and RIGHT, positive exactly for DOWN, negative exactly for UP (y grows downwards, as the missile offsets show), and at most 1 in size |
| Geometry.Opposite | src/main/java/com/tankgame/strategy/RandomMovementStrategy.java:62 | The opposite direction differs from the original, stays on the same axis and negates both steps |
| Geometry.OppositeIsInvolution | src/main/java/com/tankgame/strategy/RandomMovementStrategy.java:77 | Reversing twice gives back the original direction |
| Geometry.CenterIsMidpoint | src/main/java/com/tankgame/model/GameObject.java:41-42 | The centre is equidistant from the left and right edges and from the top and bottom edges |
| Geometry.IntersectsIsSymmetric | src/main/java/com/tankgame/model/GameObject.java:26-31 | a intersects b exactly when b intersects a |
| Geometry.TouchingBoxesDoNotIntersect | src/main/java/com/tankgame/model/GameObject.java:26-31 | Overlap is strict: boxes that only share an edge do not intersect |
| Geometry.NonEmptyBoxIntersectsItself | src/main/java/com/tankgame/model/GameObject.java:27-30 | A box with positive width and height intersects itself |
| Geometry.IntersectsIffCommonInteriorPoint | src/main/java/com/tankgame/model/GameObject.java:26-31 | For boxes of positive size, the four-comparison test holds exactly when some point lies strictly inside both boxes |
| Objects.FirstObstruction | src/main/java/com/tankgame/model/Tank.java:64-70 | The obstacle scan stops at the first object that is not the mover and is active, solid and overlapping; none before it qualifies |
| Objects.BlockedIffSomeObstruction | src/main/java/com/tankgame/model/Tank.java:64-70 | A step is rolled back exactly when some object of the list obstructs it |
| Objects.SelfNeverObstructs | src/main/java/com/tankgame/model/Tank.java:65 | Whether a step is blocked does not depend on the moving object itself being in the list |
| Steering.Perpendicular | src/main/java/com/tankgame/strategy/RandomMovementStrategy.java:65-69 | A perpendicular choice always switches axis; the coin picks the negative (UP/LEFT) or the positive (DOWN/RIGHT) side |
| Steering.PerpendicularReachesOtherAxis | src/main/java/com/tankgame/strategy/RandomMovementStrategy.java:65-69 | Both directions of the other axis are reachable by the coin flip |
| Steering.Rung | src/main/java/com/tankgame/strategy/RandomMovementStrategy.java:60-74 | The recovery ladder reverses below the first threshold, switches axis below the second, and takes the random pick otherwise |
| Steering.Recover | src/main/java/com/tankgame/strategy/RandomMovementStrategy.java:57-94 | A recovery records the previous heading and resets the stuck count on the random rung. A second consecutive reversal back onto the last heading starts a breakout on the other axis and clears the flip count; otherwise the rung is taken and the flip count grows or resets |
| Wander.Init | src/main/java/com/tankgame/strategy/RandomMovementStrategy.java:14-34 | A new wanderer heads in its drawn direction, with no previous position (-1) and every counter at 0 |
| Wander.Detect | src/main/java/com/tankgame/strategy/RandomMovementStrategy.java:48-104 | Moving resets both stuck counters. A motionless call counts up, and on the third consecutive one runs a recovery that zeroes the consecutive count and the dwell counter, records the old heading and resets the stuck count at the random rung. The recovery heads along the ladder rung for the new stuck count unless this is the second flip back onto the last heading; then it starts the 60-call breakout on the other axis and clears the flips |
| Wander.Turn | src/main/java/com/tankgame/strategy/RandomMovementStrategy.java:111-130 | A change happens exactly when there is no pending stuck count, the dwell is at least 180, and either the dwell has reached 300 or the 2% change roll hits. A roll of 0.02 or more below 300 leaves the state untouched. A change resets the dwell and records the previous heading. On the 80% turn roll it takes the coin's direction on the other axis; otherwise it takes the random pick |
| Wander.Next | src/main/java/com/tankgame/strategy/RandomMovementStrategy.java:37-133 | A call during a breakout only counts the window down and keeps the heading. Otherwise the turn rule is applied to the sampled, counted state. The first call skips stuck detection. A call after a move resets the stuck counters. Such a call changes heading at a counted dwell of 300, or of 180 to 299 with the 2% roll: it turns to the coin's perpendicular direction on the 80% roll and takes the random pick otherwise. Below 180, or with a missed roll below 300, it keeps the heading and counts the dwell up |
| Wander.FirstCallSkipsStuckDetection | src/main/java/com/tankgame/strategy/RandomMovementStrategy.java:20-48 | The first call after construction leaves the stuck counters at 0, keeps the heading and records the position |
| Wander.RecoveryOnThirdMotionlessCall | src/main/java/com/tankgame/strategy/RandomMovementStrategy.java:51-98 | A motionless call either counts one more stuck call or, on the third in a row, recovers with the dwell restarted and the previous heading recorded |
| Wander.InitEstablishesInv | src/main/java/com/tankgame/strategy/RandomMovementStrategy.java:30-34 | A new wanderer satisfies the counter invariant |
| Wander.NextPreservesInv | src/main/java/com/tankgame/strategy/RandomMovementStrategy.java:37-133 | Every call keeps the counters in range: the stuck count tracks the consecutive count modulo 3, flips stay at most 1, the breakout at most 60, and the dwell never exceeds 301 |
| Wander.RecoverySchedule | src/main/java/com/tankgame/strategy/RandomMovementStrategy.java:56-74 | Recoveries happen at stuck counts 3, 6, 9 and 12. They reverse at 3, switch axis at 6 and 9, and take the random pick and reset the count at 12 |
| Wander.OscillationStartsBreakout | src/main/java/com/tankgame/strategy/RandomMovementStrategy.java:76-94 | A second flip back onto the last heading forces a 60-call breakout on the other axis and clears the flip counter |
| Wander.BreakoutWindowHoldsHeading | src/main/java/com/tankgame/strategy/RandomMovementStrategy.java:39-42 | During a breakout window, any run of calls only counts the window down; heading and all other state stay put |
| Chase.Init | src/main/java/com/tankgame/strategy/AggressiveMovementStrategy.java:29-33 | A new chaser faces DOWN, has no previous position, and has every counter at 0 |
| Chase.Pursue | src/main/java/com/tankgame/strategy/AggressiveMovementStrategy.java:126-140 | Aligned on x only, move vertically; aligned on y only, move horizontally; otherwise take the axis with the larger offset, ties going vertical. A vertical move is DOWN exactly when the player is below, and a horizontal move is RIGHT exactly when the player is to the right |
| Chase.PursuitClosesIn | src/main/java/com/tankgame/strategy/AggressiveMovementStrategy.java:126-140 | The pursuit heading never points away from the player, and points towards the player whenever the player is somewhere else |
| Chase.Detect | src/main/java/com/tankgame/strategy/AggressiveMovementStrategy.java:56-106 | Moving resets the stuck count. From the third motionless call on, every motionless call recovers, zeroing the dwell counter, recording the old heading and resetting the count at the random rung. The recovery heads along the ladder rung unless this is the second flip back onto the last heading; then it starts the 45-call breakout on the other axis and clears the flips |
| Chase.Recalculate | src/main/java/com/tankgame/strategy/AggressiveMovementStrategy.java:113-149 | Nothing changes before a dwell of 90. From then on, the 15% deviation roll takes the random pick and any other roll takes the pursuit heading. The state changes exactly when that heading differs from the current one; a change records the old heading and resets the dwell |
| Chase.RecoverySchedule | src/main/java/com/tankgame/strategy/AggressiveMovementStrategy.java:56-80 | Recoveries of a tank chasing an active player happen at stuck counts 3 to 9. Counts 3 to 5 reverse, 6 to 8 switch axis, and 9 takes the random pick and restarts the count. Unless a breakout starts, the call ends heading along that rung |
| Chase.Next | src/main/java/com/tankgame/strategy/AggressiveMovementStrategy.java:36-152 | A breakout call only counts down. With no active player, a dwell that is a multiple of 180 takes the random wander pick, any other dwell keeps the heading, and stuck tracking is left alone. With an active player, recalculation runs on the sampled, counted state. A tank that moved and whose counted dwell reaches 90 heads for the random deviation pick on the 15% roll and for the pursuit heading otherwise. A change of heading restarts the dwell |
| Chase.RecoveryResetsDwell | src/main/java/com/tankgame/strategy/AggressiveMovementStrategy.java:101 | After a recovery the dwell counter restarts (it is 1 after the increment) and the previous heading is recorded |
| Chase.InitEstablishesInv | src/main/java/com/tankgame/strategy/AggressiveMovementStrategy.java:29-33 | A new chaser satisfies the counter invariant |
| Chase.NextPreservesInv | src/main/java/com/tankgame/strategy/AggressiveMovementStrategy.java:36-152 | Every call keeps the stuck count below 9, the flips at most 1 and the breakout at most 45 |
| Chase.BreakoutWindowHoldsHeading | src/main/java/com/tankgame/strategy/AggressiveMovementStrategy.java:38-41 | During a breakout window, any run of calls only counts the window down |
| Strategies.NextMove | src/main/java/com/tankgame/core/GameEngine.java:280-283 | Player control never yields a heading and keeps its state. The wandering and chasing strategies always yield their new current heading and keep their kind |
| Strategies.PlayerControlIgnoresArguments | src/main/java/com/tankgame/strategy/PlayerMovementStrategy.java:14-17 | The player strategy's answer is the same for every tank, opponent and draw |
| Missiles.New | src/main/java/com/tankgame/model/Missile.java:11-22 | A new missile is an active 10 x 10 box at the given point, with its direction and owner fixed |
| Missiles.AsBody | src/main/java/com/tankgame/model/Missile.java:10-22 | Seen as a generic object, a missile is solid, because `isSolid` is not overridden, so it blocks tank moves |
| Missiles.Advance | src/main/java/com/tankgame/model/Missile.java:24-28 | An update moves the box by the direction's step times 5, and direction, owner, size and flag stay fixed |
| Missiles.OutOfBoundsIgnoresSize | src/main/java/com/tankgame/model/Missile.java:38-40 | The bounds test reads only the top-left corner, so a missile's size never matters, and a corner exactly on the far edges of the map is still in bounds |
| Missiles.AdvanceNDisplacement | src/main/java/com/tankgame/model/Missile.java:24-28 | k updates move a missile exactly k times 5 along its direction |
| Missiles.EveryMissileLeaves | src/main/java/com/tankgame/model/Missile.java:24-40 | Every missile is out of bounds after finitely many updates |
| Walls.New | src/main/java/com/tankgame/model/Wall.java:13-15 | A wall's box is exactly the constructor's arguments, and the wall is active |
| Walls.Update | src/main/java/com/tankgame/model/Wall.java:17-20 | A wall's update changes nothing |
| Walls.AsBody | src/main/java/com/tankgame/model/GameObject.java:44-46 | A wall is solid, by the inherited `isSolid` |
| MedPacks.New | src/main/java/com/tankgame/model/MedPack.java:10-18 | A new med pack is an active 30 x 30 box at the given point with its pulse at 0 |
| MedPacks.Update | src/main/java/com/tankgame/model/MedPack.java:20-23 | An update raises only the pulse timer; box and flag are untouched |
| MedPacks.AsBody | src/main/java/com/tankgame/model/MedPack.java:25-28 | A med pack is not solid |
| MedPacks.PulseAccumulates | src/main/java/com/tankgame/model/MedPack.java:14-23 | After k updates the pulse has grown by exactly k times 0.05 and nothing else has changed |
| Explosions.New | src/main/java/com/tankgame/model/Explosion.java:11-23 | A new explosion is a 60 x 60 box centred on the given point, at frame 0 with the timer at 0 |
| Explosions.Update | src/main/java/com/tankgame/model/Explosion.java:25-37 | The timer counts ticks; when it reaches a frame's length, the frame advances by exactly one and the timer resets; the explosion goes out once the frame reaches 11 |
| Explosions.AsBody | src/main/java/com/tankgame/model/Explosion.java:39-42 | An explosion is not solid |
| Explosions.Lifetime | src/main/java/com/tankgame/model/Explosion.java:18-37 | After k updates a new explosion is at frame k div 4 with the timer at k mod 4, and is active exactly while k < 44 |
| Tanks.New | src/main/java/com/tankgame/model/Tank.java:14-36 | A new tank is an active 40 x 40 box with health 100, cooldown 0, and the given facing, strategy, speed and side |
| Tanks.AsBody | src/main/java/com/tankgame/model/GameObject.java:44-46 | A tank is solid, by the inherited `isSolid` |
| Tanks.Update | src/main/java/com/tankgame/model/Tank.java:38-43 | An update only lowers a positive cooldown by one tick and leaves a zero cooldown at zero |
| Tanks.Move | src/main/java/com/tankgame/model/Tank.java:45-71 | Facing takes the given heading even when the step is refused. The step is taken exactly when the new box is inside the map and no other active solid object overlaps it; otherwise the position is exactly the old one |
| Tanks.MoveKeepsPlacement | src/main/java/com/tankgame/model/Tank.java:53-70 | A move either stays put or lands on the candidate. A changed position is inside the map and unobstructed, and a tank inside the map stays inside |
| Tanks.MoveIgnoresSelf | src/main/java/com/tankgame/model/Tank.java:64-65 | Moving against a list that contains the tank itself is the same as moving against the list without it |
| Tanks.FlushMissileMissesItsTank | src/main/java/com/tankgame/model/Tank.java:84-101 | A missile placed flush against the facing side never intersects the firing tank |
| Tanks.Fire | src/main/java/com/tankgame/model/Tank.java:73-104 | While cooling down, firing changes nothing and yields no missile. Otherwise it starts the 32-tick cooldown and yields an active 10 x 10 missile with the given identity and the tank's facing and side, flush with the tank's front and not touching it |
| Tanks.TakeDamage | src/main/java/com/tankgame/model/Tank.java:106-112 | Health becomes max(0, h - d), and the tank stays active exactly when it was active and health is left |
| Tanks.Heal | src/main/java/com/tankgame/model/Tank.java:114-116 | Healing sets health to 100 whatever it was, and touches nothing else, not even the active flag |
| Tanks.OperationsKeepSound | src/main/java/com/tankgame/model/Tank.java:38-116 | Damage, healing, cooldown, moving and firing keep health within [0, 100] with no active tank at zero, and none of them revives a destroyed tank |
| Tanks.FourHitsDestroy | src/main/java/com/tankgame/model/Tank.java:106-112 | A full-health tank survives three 25-damage hits with 25 left and is destroyed by the fourth |
| Tanks.CooldownCountsDown | src/main/java/com/tankgame/model/Tank.java:38-43 | k updates lower the cooldown by k, stopping at zero, and change nothing else |
| Tanks.FireWindow | src/main/java/com/tankgame/model/Tank.java:73-78 | After a shot, a second shot succeeds exactly when at least 32 updates have passed |
| Factory.CreatePlayerTank | src/main/java/com/tankgame/factory/GameObjectFactory.java:21-23 | The player's tank faces UP, is player-controlled, moves at 3.5 and is marked as the player |
| Factory.CreateEnemyTank | src/main/java/com/tankgame/factory/GameObjectFactory.java:25-29 | An enemy faces DOWN, moves at 1.0 and is not the player. `aggressive` selects a fresh chasing strategy, otherwise a fresh wandering one |
| Factory.CreateWall | src/main/java/com/tankgame/factory/GameObjectFactory.java:31-33 | The wall's box is the given coordinates and size |
| Factory.CreateMedPack | src/main/java/com/tankgame/factory/GameObjectFactory.java:35-37 | The med pack sits at the given point |
| Factory.CreateExplosion | src/main/java/com/tankgame/factory/GameObjectFactory.java:39-41 | The explosion is centred on the given point |
| Factory.SteeringBySide | src/main/java/com/tankgame/factory/GameObjectFactory.java:21-29 | The player's tank is never steered by its strategy, and an enemy's strategy always gives a heading |
| Factory.PlayerOutpacesEnemies | src/main/java/com/tankgame/factory/GameObjectFactory.java:22-28 | The player's step in any direction is 3.5 times an enemy's |
| Arena.EnemySpawns | src/main/java/com/tankgame/core/GameEngine.java:85-92 | There are six enemy spawn points |
| Arena.Course | src/main/java/com/tankgame/core/GameEngine.java:106-140 | The course has seventeen walls |
| Arena.WallLayout | src/main/java/com/tankgame/core/GameEngine.java:106-143 | Every wall of the course is built active with exactly the course's box |
| Arena.CourseInsideMap | src/main/java/com/tankgame/core/GameEngine.java:106-140 | Every wall has positive size and lies inside the map |
| Arena.PlayerSpawnIsClear | src/main/java/com/tankgame/core/GameEngine.java:68 | The player's spawn point is inside the map and touches no wall |
| Arena.EnemySpawnsAreClear | src/main/java/com/tankgame/core/GameEngine.java:83-92 | Every enemy spawn point is inside the map and touches no wall |
| Arena.SpawnsApart | src/main/java/com/tankgame/core/GameEngine.java:85-92 | No enemy starts overlapping the player or another enemy |
| Events.NewManager | src/main/java/com/tankgame/observer/GameEventManager.java:12-14 | A new manager has no listeners |
| Events.AddListener | src/main/java/com/tankgame/observer/GameEventManager.java:16-18 | Registering appends the listener at the end and keeps the earlier registrations in order |
| Events.RemoveListener | src/main/java/com/tankgame/observer/GameEventManager.java:20-22 | Removing an absent listener changes nothing. Otherwise it withdraws only the earliest registration: everything before and after it keeps its order |
| Events.Notify | src/main/java/com/tankgame/observer/GameEventManager.java:24-28 | A notification reaches each registration once, in registration order |
| Events.RemoveUndoesAdd | src/main/java/com/tankgame/observer/GameEventManager.java:16-22 | Adding a listener not yet present and then removing it restores the original registry |
| Events.DeliveriesMatchRegistrations | src/main/java/com/tankgame/observer/GameEventManager.java:24-28 | A listener hears a notification exactly as many times as it is registered |
| World.Destroyed | src/main/java/com/tankgame/core/GameEngine.java:423-424 | The count of destroyed tanks equals the list length exactly when none is active (`noneMatch`), and is zero exactly when all are active |
| World.WallsObstruct | src/main/java/com/tankgame/core/GameEngine.java:142 | Every wall is among the obstacles resolved from `allObjects`, so every tank move is tested against it |
| World.PlayerReferencedOnce | src/main/java/com/tankgame/core/GameEngine.java:413-419 | While `allObjects` is in step, it holds the player exactly once, so replacing every player reference with the new tank keeps its contents |
| World.DestroyedAfterUpdate | src/main/java/com/tankgame/core/GameEngine.java:343 | Replacing one tank changes the destroyed count by that tank's change of state alone |
| World.AddMissile | src/main/java/com/tankgame/core/GameEngine.java:267-268 | A fired missile goes to the end of the missile list under the next identity, above every identity already in use, and `allObjects` gains exactly its reference; nothing else changes |
| World.AddMissileKeeps | src/main/java/com/tankgame/core/GameEngine.java:267-268 | Adding a missile keeps `allObjects` in step and the identities fresh |
| World.AddPack | src/main/java/com/tankgame/core/GameEngine.java:203-205 | A placed med pack goes to the end of the pack list under the next identity, above every identity already in use, and `allObjects` gains exactly its reference; nothing else changes |
| World.AddPackKeeps | src/main/java/com/tankgame/core/GameEngine.java:203-205 | Adding a med pack keeps `allObjects` in step and the identities fresh |
| World.AddExplosion | src/main/java/com/tankgame/core/GameEngine.java:407-411 | A new explosion goes to the end of the explosion list under the next identity, above every identity already in use, and `allObjects` gains exactly its reference; nothing else changes |
| World.AddExplosionKeeps | src/main/java/com/tankgame/core/GameEngine.java:407-411 | Adding an explosion keeps `allObjects` in step and the identities fresh |
| World.DropPack | src/main/java/com/tankgame/core/GameEngine.java:388-389 | A consumed pack leaves the pack list at its position, with the packs before and after it kept in order, and `allObjects` loses exactly one reference to it; nothing else changes |
| World.DropPackKeepsParts | src/main/java/com/tankgame/core/GameEngine.java:387-389 | Consuming a pack keeps `allObjects` in step, the identities fresh and the remaining packs well placed |
| Respawn.Try | src/main/java/com/tankgame/core/GameEngine.java:162-163 | Every try lies in [100, 900) x [100, 700) |
| Respawn.FindSpot | src/main/java/com/tankgame/core/GameEngine.java:156-199 | The spot found is the first of at most 50 tries that is off every wall and at least 180 from every pack. No spot is found exactly when all 50 tries fail |
| Respawn.PlaceOneExtends | src/main/java/com/tankgame/core/GameEngine.java:155-207 | Each pass of the pack loop only appends active packs with their pulse at 0, at most one per pass, and leaves everything else alone |
| Respawn.PlaceOneAdds | src/main/java/com/tankgame/core/GameEngine.java:155-206 | A pass whose tries all fail changes nothing. Otherwise the new pack goes to the end of the pack list at the spot found, under the next identity, and its reference joins `allObjects`; nothing else changes |
| Respawn.PlaceOneAddsIffAcceptable | src/main/java/com/tankgame/core/GameEngine.java:155-206 | A pass adds no pack or exactly one, and it adds one exactly when one of its 50 tries is acceptable |
| Respawn.FirstAcceptableFound | src/main/java/com/tankgame/core/GameEngine.java:161-199 | The spot the tries settle on is the first acceptable one |
| Respawn.RoundPlaces | src/main/java/com/tankgame/core/GameEngine.java:155-206 | Pass `i` of the loop works on the packs the earlier passes left. If none of its tries is acceptable against them, it changes nothing. Otherwise it appends a pack at its first acceptable try, under the next identity |
| Respawn.FirstRoundKept | src/main/java/com/tankgame/core/GameEngine.java:155-206 | A pack the first pass places stays at its place in the list through the later passes |
| Respawn.NothingAcceptableKeeps | src/main/java/com/tankgame/core/GameEngine.java:155-206 | When no try of any pass is acceptable on the map as it was, the loop changes nothing |
| Respawn.PlaceOneKeepsInvariant | src/main/java/com/tankgame/core/GameEngine.java:201-206 | Placing one pack keeps `allObjects` in step, the identities fresh and all packs well placed |
| Respawn.AddedPackIsPlaced | src/main/java/com/tankgame/core/GameEngine.java:166-205 | An accepted spot, added to well-placed packs, leaves them well placed |
| Respawn.RespawnMedPacks | src/main/java/com/tankgame/core/GameEngine.java:150-207 | A respawn attempts 5 plus the draw (0 to 2) packs. It keeps the existing packs as they were and adds at most that many new active packs. When some try for the first pack is acceptable on the map as it was, the first new pack sits at the first such try, under the next identity. When no try of any pack is acceptable on that map, nothing changes |
| Respawn.RespawnKeepsSync | src/main/java/com/tankgame/core/GameEngine.java:204-205 | A respawn keeps `allObjects` in step |
| Respawn.RoundsKeepSync | src/main/java/com/tankgame/core/GameEngine.java:155-206 | Every prefix of the pack loop keeps `allObjects` in step |
| Respawn.RespawnKeepsFresh | src/main/java/com/tankgame/core/GameEngine.java:203-205 | A respawn keeps the identities fresh |
| Respawn.RespawnKeepsPlaced | src/main/java/com/tankgame/core/GameEngine.java:160-206 | After a respawn every pack is in the spawn area, off every wall and at least 180 from every other pack |
| Respawn.FirstPackPlaced | src/main/java/com/tankgame/core/GameEngine.java:153-206 | On an empty map, a respawn places at least one pack whenever some try for the first pack is off the walls |
| Phases.Heading | src/main/java/com/tankgame/core/GameEngine.java:248-258 | At most one heading per update, with priority UP/W over DOWN/S over LEFT/A over RIGHT/D, and none without a movement key |
| Phases.HeadingIgnoresOtherKeys | src/main/java/com/tankgame/core/GameEngine.java:250-258 | Pressing or releasing a key other than the eight movement keys does not change the heading |
| Phases.Shoot | src/main/java/com/tankgame/core/GameEngine.java:264-270 | A tank that is cooling down fires nothing, and the engine is unchanged. Otherwise exactly one missile is appended. It carries the next identity and the tank's facing and side, and it does not touch the tank. `allObjects` gains exactly its reference, and the tank's cooldown becomes 32. Other tanks and everything but the tanks, the missiles and `allObjects` stay as they were |
| Phases.HandleInput | src/main/java/com/tankgame/core/GameEngine.java:245-271 | Nothing happens to an inactive player. A held movement key sets the facing and moves the tank to where `move` puts it against `allObjects`; without one the tank stays put. SPACE with the cooldown at zero appends exactly one missile, with the next identity, the tank's facing and side, and its reference in `allObjects`, and sets the cooldown to 32. Without SPACE, or while cooling down, no missile appears. Nothing but the player, the missiles and `allObjects` changes |
| Phases.Drive | src/main/java/com/tankgame/core/GameEngine.java:260-262 | Only the moving tank changes, into the result of `move` against the obstacles resolved from `allObjects`. The player moving leaves the enemies alone, and an enemy moving leaves the player and every other enemy alone |
| Phases.Steer | src/main/java/com/tankgame/core/GameEngine.java:280-283 | Only the steered enemy changes. Its strategy takes the strategy's new state, and when the strategy gives a heading the tank moves against `allObjects` as `move` does; other enemies, and everything outside the enemy list, stay as they were |
| Phases.EnemyTurn | src/main/java/com/tankgame/core/GameEngine.java:276-295 | An inactive enemy is skipped. An active one takes its strategy's new state. A fire roll below 0.01 with the cooldown at zero appends exactly one missile: it carries the next identity, the tank's facing and the tank's side, it is added to `allObjects`, and the tank's cooldown ends at 31 after its own update. A roll of 0.01 or more, or a cooling tank, fires nothing. Other enemies are untouched, and only the enemies, the missiles and `allObjects` change |
| Phases.CoolDown | src/main/java/com/tankgame/core/GameEngine.java:294 | Only enemy i changes: its cooldown drops by one tick and stops at zero |
| Phases.EnemiesFrom | src/main/java/com/tankgame/core/GameEngine.java:276-295 | The enemy loop keeps the number of enemies and changes only the enemies, the missiles and `allObjects` |
| Phases.SweepKeepsLive | src/main/java/com/tankgame/core/GameEngine.java:300-309 | After the sweep, the missile list holds exactly the advanced copies of the missiles that were active and in bounds |
| Phases.SweepAccountsForRefs | src/main/java/com/tankgame/core/GameEngine.java:300-309 | Every missile reference either stays with a kept missile or is among those removed from `allObjects` |
| Phases.SweepKeepsIds | src/main/java/com/tankgame/core/GameEngine.java:300-309 | The kept missiles keep their identities in increasing order |
| Phases.SweepMissiles | src/main/java/com/tankgame/core/GameEngine.java:298-310 | `updateMissiles` keeps exactly the missiles that were active and in bounds, each advanced one step, and touches nothing but the missile list and `allObjects`. It keeps `allObjects` in step and the identities fresh |
| Phases.FadeKeepsRunning | src/main/java/com/tankgame/core/GameEngine.java:312-323 | After the update, exactly the explosions still active remain, each advanced one tick |
| Phases.FadeAccountsForRefs | src/main/java/com/tankgame/core/GameEngine.java:316-322 | Every explosion reference either stays with a kept explosion or is among those removed from `allObjects` |
| Phases.FadeKeepsIds | src/main/java/com/tankgame/core/GameEngine.java:316-322 | The kept explosions keep their identities in increasing order |
| Phases.UpdateExplosions | src/main/java/com/tankgame/core/GameEngine.java:312-323 | `updateExplosions` keeps exactly the explosions still active after their update, each updated once, and touches nothing but the explosion list and `allObjects`. It keeps `allObjects` in step and the identities fresh |
| Phases.PulseAll | src/main/java/com/tankgame/core/GameEngine.java:231 | Every med pack pulses once, and the identities and references are unchanged |
| Phases.MoveAmongWallsKeepsPlaced | src/main/java/com/tankgame/model/Tank.java:53-70 | A tank that is inside the map and off the walls stays so after a move, whenever the walls are among the obstacles |
| Phases.MoveKeepsPlaced | src/main/java/com/tankgame/core/GameEngine.java:261 | A move against `allObjects` keeps a well-placed tank inside the map and off the walls |
| Phases.AddMissileKeepsValid | src/main/java/com/tankgame/core/GameEngine.java:267-268 | Adding a missile keeps the engine invariant |
| Phases.DriveKeepsValid | src/main/java/com/tankgame/core/GameEngine.java:260-262 | A tank's move keeps the engine invariant |
| Phases.ShootKeepsValid | src/main/java/com/tankgame/core/GameEngine.java:264-270 | A tank's attempt to fire keeps the engine invariant |
| Phases.HandleInputKeepsValid | src/main/java/com/tankgame/core/GameEngine.java:245-271 | Player input keeps the engine invariant |
| Phases.SteerKeepsValid | src/main/java/com/tankgame/core/GameEngine.java:280-283 | An enemy's steering keeps the engine invariant |
| Phases.CoolDownKeepsValid | src/main/java/com/tankgame/core/GameEngine.java:294 | An enemy's cooldown update keeps the engine invariant |
| Phases.EnemyTurnKeepsValid | src/main/java/com/tankgame/core/GameEngine.java:276-295 | One enemy's turn keeps the engine invariant |
| Phases.EnemiesFromKeepsValid | src/main/java/com/tankgame/core/GameEngine.java:273-296 | The enemy loop keeps the engine invariant |
| Phases.SweepMissilesKeepsValid | src/main/java/com/tankgame/core/GameEngine.java:298-310 | The missile sweep keeps the engine invariant |
| Phases.UpdateExplosionsKeepsValid | src/main/java/com/tankgame/core/GameEngine.java:312-323 | The explosion sweep keeps the engine invariant |
| Phases.PulseKeepsValid | src/main/java/com/tankgame/core/GameEngine.java:231 | The med pack pulse keeps the engine invariant |
| Collisions.FirstStruck | src/main/java/com/tankgame/core/GameEngine.java:341-342 | The enemy a player's missile hits is the first active enemy it overlaps, in list order |
| Collisions.Spend | src/main/java/com/tankgame/core/GameEngine.java:333-334 | Only missile k changes: it is switched off, and the missile references and identities stay as they were |
| Collisions.PlayerShot | src/main/java/com/tankgame/core/GameEngine.java:339-353 | A player's missile that strikes no enemy changes nothing. Otherwise it deals 25 to exactly the first struck enemy and stops. A kill destroys one enemy and adds exactly 10 points, one explosion at the enemy's centre and one `ENEMY_DESTROYED` notice; without a kill, score, explosions and notices are unchanged |
| Collisions.PlayerShotKeepsSync | src/main/java/com/tankgame/core/GameEngine.java:346-347 | A player's shot keeps `allObjects` in step |
| Collisions.PlayerShotKeepsFresh | src/main/java/com/tankgame/core/GameEngine.java:346-347 | A player's shot keeps the identities fresh |
| Collisions.RespawnPlayer | src/main/java/com/tankgame/core/GameEngine.java:413-419 | A fresh player's tank at (500, 700) replaces every player reference in `allObjects`, which stays in step |
| Collisions.EnemyShot | src/main/java/com/tankgame/core/GameEngine.java:354-370 | An enemy's missile that misses the active player changes nothing. A hit deals 25 and stops the missile. A kill explodes at the tank's centre, costs one life and emits `PLAYER_DESTROYED`; a new tank spawns only while lives remain. The enemies are never touched |
| Collisions.EnemyShotKeepsSync | src/main/java/com/tankgame/core/GameEngine.java:360-367 | An enemy's shot, including the respawn, keeps `allObjects` in step |
| Collisions.EnemyShotKeepsFresh | src/main/java/com/tankgame/core/GameEngine.java:360-361 | An enemy's shot keeps the identities fresh |
| Collisions.MissileSides | src/main/java/com/tankgame/core/GameEngine.java:327-371 | A wall hit stops the missile, yet the tank check still runs. A player's missile never touches the player or the lives, and damages exactly the first struck enemy. An enemy's missile never touches the enemies or the score, and a hit on the player damages it or costs a life |
| Collisions.HitCheck | src/main/java/com/tankgame/core/GameEngine.java:328-370 | An inactive missile is skipped. A missile still active afterwards overlaps no wall and, if it is the player's, no active enemy. Only the missile's flag changes, and no tank comes back to life |
| Collisions.HitCheckKeepsSync | src/main/java/com/tankgame/core/GameEngine.java:328-370 | One round of the missile loop keeps `allObjects` in step |
| Collisions.HitCheckKeepsFresh | src/main/java/com/tankgame/core/GameEngine.java:328-370 | One round of the missile loop keeps the identities fresh |
| Collisions.MissilePass | src/main/java/com/tankgame/core/GameEngine.java:327-371 | The missile loop keeps the missile list's length and contents apart from the flags, leaves walls, med packs and keys alone, and revives no tank |
| Collisions.MissilePassKeepsSync | src/main/java/com/tankgame/core/GameEngine.java:327-371 | The missile loop keeps `allObjects` in step |
| Collisions.MissilePassKeepsFresh | src/main/java/com/tankgame/core/GameEngine.java:327-371 | The missile loop keeps the identities fresh |
| Collisions.MissilePassSettles | src/main/java/com/tankgame/core/GameEngine.java:327-371 | After the missile loop, every missile still active overlaps no wall and, if it is the player's, no active enemy |
| Collisions.FirstPicker | src/main/java/com/tankgame/core/GameEngine.java:395-396 | The enemy that takes a pack is the first active enemy overlapping it, in list order |
| Collisions.RemainingIsFilter | src/main/java/com/tankgame/core/GameEngine.java:374-404 | The packs left are exactly those that no tank picked up |
| Collisions.PickupsAnnounce | src/main/java/com/tankgame/core/GameEngine.java:383-390 | Only the player's pickups are announced, each as `MEDPACK_COLLECTED` with its pack. There is no announcement exactly when the player overlaps no active pack |
| Collisions.Collect | src/main/java/com/tankgame/core/GameEngine.java:383-391 | A pickup by the player heals the player's tank to full health, removes exactly that pack from the pack list and from `allObjects`, and appends one `MEDPACK_COLLECTED` notice with the pack; nothing else changes |
| Collisions.Seize | src/main/java/com/tankgame/core/GameEngine.java:395-402 | A pickup by enemy k heals exactly that enemy, removes exactly that pack from the pack list and from `allObjects`, and announces nothing |
| Collisions.HealedReachAlike | src/main/java/com/tankgame/core/GameEngine.java:385-397 | Healing a tank does not change which packs it can reach, so the order of pickups does not matter |
| Collisions.PackPass | src/main/java/com/tankgame/core/GameEngine.java:373-404 | The med pack loop removes exactly the picked-up packs, appends one notice per player pickup, and heals the player when it picked anything up. An enemy is healed exactly when it is the first enemy to reach some active pack that the player does not reach; every other enemy is left as it was |
| Collisions.PackPassKeepsInvariant | src/main/java/com/tankgame/core/GameEngine.java:387-400 | The med pack loop keeps `allObjects` in step, the identities fresh and the remaining packs well placed |
| Collisions.CheckCollisionsSettles | src/main/java/com/tankgame/core/GameEngine.java:325-405 | After the missile loop and then the med pack loop, every missile still active overlaps no wall and, if it is the player's, no active enemy |
| Collisions.CheckCollisionsKeepsInvariant | src/main/java/com/tankgame/core/GameEngine.java:325-405 | The missile loop followed by the med pack loop keeps `allObjects` in step, the identities fresh and the packs well placed |
| Collisions.CheckCollisions | src/main/java/com/tankgame/core/GameEngine.java:325-405 | `checkCollisions` keeps the walls, the keys, the state and the lengths of the enemy and missile lists, and only switches missiles off. Afterwards every missile still active overlaps no wall and, if it is the player's, no active enemy. The packs left are those no tank picks up after the missile loop, and one notice is appended per player pickup. It keeps `allObjects` in step, the identities fresh and the packs well placed |
| Collisions.DamageKeepsVital | src/main/java/com/tankgame/model/Tank.java:106-112 | A hit keeps health within [0, 100], with the tank active exactly while health is positive |
| Collisions.PlayerShotFights | src/main/java/com/tankgame/core/GameEngine.java:341-350 | A player's shot keeps the tanks placed and vital, the score at 10 per destroyed enemy, and the lives in step with the player's tank |
| Collisions.EnemyShotFights | src/main/java/com/tankgame/core/GameEngine.java:356-368 | An enemy's shot keeps the tanks placed and vital, the lives within [0, 3], and the player active exactly while lives remain |
| Collisions.FreshTankPlaced | src/main/java/com/tankgame/core/GameEngine.java:413-414 | A respawned player's tank is inside the map, off the walls and at full health |
| Collisions.HitCheckFights | src/main/java/com/tankgame/core/GameEngine.java:328-370 | One round of the missile loop keeps the score and lives bookkeeping and the tanks' placement and health |
| Collisions.MissilePassFights | src/main/java/com/tankgame/core/GameEngine.java:327-371 | The missile loop keeps the score and lives bookkeeping and the tanks' placement and health |
| Collisions.UnhurtKeepsDestroyed | src/main/java/com/tankgame/core/GameEngine.java:395-397 | Healing active enemies leaves the number of destroyed enemies unchanged |
| Collisions.PackPassFights | src/main/java/com/tankgame/core/GameEngine.java:373-404 | The med pack loop keeps the score and lives bookkeeping and the tanks' placement and health |
| Collisions.CheckCollisionsFights | src/main/java/com/tankgame/core/GameEngine.java:325-405 | `checkCollisions` keeps the score at 10 per destroyed enemy, the lives within [0, 3] and in step with the player's tank, and every tank placed and vital |
| Collisions.HitCheckProgresses | src/main/java/com/tankgame/core/GameEngine.java:348-362 | One round of the missile loop never lowers the score, never raises the lives, and only appends notices |
| Collisions.MissilePassProgresses | src/main/java/com/tankgame/core/GameEngine.java:327-371 | The missile loop never lowers the score, never raises the lives, and only appends notices |
| Collisions.CheckCollisionsProgresses | src/main/java/com/tankgame/core/GameEngine.java:325-405 | `checkCollisions` never lowers the score, never raises the lives, and only appends notices |
| Collisions.Conditions | src/main/java/com/tankgame/core/GameEngine.java:421-436 | WON is set when no enemy is active, and LOST when no lives remain and the player's tank is inactive; LOST is checked last and overrides WON. `GAME_WON` and `GAME_LOST` are appended in that order when their conditions hold |
| Collisions.ConditionsKeepLedger | src/main/java/com/tankgame/core/GameEngine.java:421-436 | The win/lose check keeps the bookkeeping and makes WON mean every enemy destroyed and LOST mean no lives left |
| Collisions.ConditionsDecide | src/main/java/com/tankgame/core/GameEngine.java:421-436 | From play, the game is LOST exactly when no lives remain, WON exactly when lives remain and no enemy is active, and still in play otherwise |
| Game.InitialEnemies | src/main/java/com/tankgame/core/GameEngine.java:81-104 | Six enemies at the fixed spawn points, active at full health, none the player, with the chasing strategy exactly at even indices |
| Game.Setup | src/main/java/com/tankgame/core/GameEngine.java:55-75 | Before the med packs, a new game is in play with 0 points, 3 lives, the identity counter at 0 and no missiles, packs or explosions. It has the player at the spawn point, the six enemies and the course's walls, and `allObjects` lists the player, then the enemies, then the walls, in that order |
| Game.Init | src/main/java/com/tankgame/core/GameEngine.java:55-79 | A new game is in play with score 0, 3 lives, no missiles or explosions, the player at (500, 700), the six enemies, the seventeen walls and at most 5 + draw active med packs; the notices and held keys carry over |
| Game.SetupValid | src/main/java/com/tankgame/core/GameEngine.java:55-75 | The game before its med packs are placed satisfies the engine invariant |
| Game.InitValid | src/main/java/com/tankgame/core/GameEngine.java:55-79 | A newly initialised game satisfies the engine invariant |
| Game.Maneuver | src/main/java/com/tankgame/core/GameEngine.java:217-231 | The movement phases of an update change only the tanks, missiles, med packs, explosions, `allObjects` and identities, and keep the number of enemies |
| Game.Restock | src/main/java/com/tankgame/core/GameEngine.java:233-236 | Med packs are respawned only when none is left, and the respawn changes only the packs, `allObjects` and identities |
| Game.Tick | src/main/java/com/tankgame/core/GameEngine.java:212-243 | An update outside play changes nothing. No update changes the walls, the number of enemies or the held keys |
| Game.ManeuverKeepsValid | src/main/java/com/tankgame/core/GameEngine.java:217-231 | The movement phases keep the engine invariant |
| Game.RestockKeepsValid | src/main/java/com/tankgame/core/GameEngine.java:233-236 | The med pack respawn keeps the engine invariant |
| Game.CheckCollisionsKeepsValid | src/main/java/com/tankgame/core/GameEngine.java:238-239 | `checkCollisions` during play keeps the engine invariant and leaves the game in play |
| Game.TickKeepsValid | src/main/java/com/tankgame/core/GameEngine.java:212-243 | Every update keeps the engine invariant |
| Game.TickDecides | src/main/java/com/tankgame/core/GameEngine.java:238-242 | After an update from play, the game is LOST exactly when no lives remain, WON exactly when lives remain and no enemy is active, and in play otherwise |
| Game.TickProgresses | src/main/java/com/tankgame/core/GameEngine.java:212-243 | An update never lowers the score, never raises the lives, and only appends notices |
| Game.TogglePause | src/main/java/com/tankgame/core/GameEngine.java:454-460 | Pausing switches only PLAYING and PAUSED into each other; WON and LOST stay; nothing else changes |
| Game.Restart | src/main/java/com/tankgame/core/GameEngine.java:462-465 | A restart yields a game in play that satisfies the engine invariant and keeps the notices and held keys |
| Game.KeyPressed | src/main/java/com/tankgame/core/GameEngine.java:438-448 | A pressed key is always recorded as held. ESC toggles the pause, and R restarts only a finished game; every other key changes nothing else |
| Game.KeyReleased | src/main/java/com/tankgame/core/GameEngine.java:450-452 | A released key is no longer held; every other key and all game state are untouched |
| Game.KeysKeepValid | src/main/java/com/tankgame/core/GameEngine.java:438-465 | Key presses and releases keep the engine invariant |
| Game.EscapeTwiceResumes | src/main/java/com/tankgame/core/GameEngine.java:441-460 | Pressing ESC twice during play or pause returns to the same state |
| Game.PressReleaseRestores | src/main/java/com/tankgame/core/GameEngine.java:438-452 | Pressing and releasing a key that is neither ESC nor R and was not held restores the engine exactly |
| Game.Run | src/main/java/com/tankgame/core/GameEngine.java:212-243 | No sequence of updates changes the walls, the held keys or the number of enemies |
| Game.RunKeepsValid | src/main/java/com/tankgame/core/GameEngine.java:212-243 | Any sequence of updates keeps the engine invariant |
| Game.RunProgresses | src/main/java/com/tankgame/core/GameEngine.java:212-243 | Over any sequence of updates the score never falls, the lives never rise, and notices are only appended |
| Game.StoppedGameFrozen | src/main/java/com/tankgame/core/GameEngine.java:212-215 | Once paused, won or lost, any sequence of updates leaves the engine exactly as it is |
| Game.FinishedStaysFinished | src/main/java/com/tankgame/core/GameEngine.java:212-215 | A won or lost game stays won or lost through any sequence of updates |

## Left out

- Rendering is not modelled: `render`, `drawHealthBar`, the JavaFX window, the HUD and `Main`. They are presentation only.
- `ResourceManager`'s image loading is not modelled; it is file I/O.
- `System.out` logging is not modelled; it is console output.
- `java.util.Random` is not simulated. Each draw is an explicit argument: the fire roll, the strategies' coins, rolls and picks, the wanderer's starting heading, the number of med packs and their positions.
- Frame time is counted in integer updates rather than accumulated 0.016-second floats. The fire cooldown of 0.5 s becomes 32 updates, and an explosion frame of 0.05 s becomes 4 updates, so an explosion lasts 44. The med pack pulse keeps its real-valued step of 0.05. IEEE rounding is not modelled; coordinates are exact reals.
- The `sqrt` in the med pack spacing test is not modelled. The model compares squared distances with 180², which is equivalent for non-negative distances.
- JavaFX `KeyCode` is abstracted. The model has the eleven keys the engine reads, plus any other key as an opaque code that is only remembered as held.
- Listeners' reactions to notifications are not modelled. The engine's notifications form an ordered log of (event, data) notices, and `GameEventManager` is a registry with a delivery trace.
- The `GameEngine`, `GameObjectFactory` and `ResourceManager` singletons are not modelled; there is one explicit engine value instead.
- `MovementStrategy`, `GameEvent` and `GameEventListener` have no behaviour of their own. They become datatypes: the three strategy states, the event tags and the listener type parameter.
- Object identity is not modelled directly. Java references become handles (`Objects.Ref`): the player, enemy and wall indices, and identities from a counter for missiles, med packs and explosions. A missile stores only its owner's side, which is all the engine reads of `getOwner()`.
- `Direction.java` is not part of this model. Its behaviour (`opposite`, `getDx`, `getDy`) is assumed: UP and DOWN are opposites, LEFT and RIGHT are opposites, and UP decreases y, as the missile offsets in `Tank.fire` imply.
- `Tank.move` with a null heading would still step along the old facing. The engine never calls it that way, so the model's `Move` takes an optional heading and keeps the same behaviour for both cases.
- Arena.EnemySpawns: states only that there are six spawn points. Their coordinates are stated through `Game.InitialEnemies`, `Arena.EnemySpawnsAreClear` and `Arena.SpawnsApart`.
- Arena.Course: states only that the course has seventeen walls. Their placement is stated through `Arena.CourseInsideMap`, `Arena.PlayerSpawnIsClear` and `Arena.EnemySpawnsAreClear`.
