/**
 * The state of `GameEngine` and the facts that hold of it between any two of
 * its steps. `all` is the engine's `allObjects` list, written as the `Ref`s of
 * the objects it holds; the obstacles a tank's move is checked against are
 * found by resolving those references, so `all` has to stay in step with the
 * typed lists for moves to see the right obstacles.
 */
module World {
  import opened Geometry
  import opened Wrappers
  import opened Objects
  import opened Seqs
  import Tanks
  import Missiles
  import Walls
  import MedPacks
  import Explosions
  import Events
  import Arena

  datatype GameState = Playing | Paused | Won | Lost

  /** The key codes the engine reacts to; any other key is only remembered as held. */
  datatype Key =
    | KeyUp | KeyW | KeyDown | KeyS | KeyLeft | KeyA | KeyRight | KeyD
    | KeySpace | KeyEscape | KeyR
    | OtherKey(code: nat)

  /**
   * The engine. `nextId` is the identity the next missile, med pack or
   * explosion receives; `events` is every notification emitted so far, in
   * order; `keys` is the set of keys currently held down.
   */
  datatype Engine = Engine(
    player: Tanks.Tank,
    enemies: seq<Tanks.Tank>,
    missiles: seq<Missiles.Missile>,
    walls: seq<Walls.Wall>,
    medPacks: seq<MedPacks.MedPack>,
    explosions: seq<Explosions.Explosion>,
    all: seq<Ref>,
    score: int,
    lives: int,
    state: GameState,
    nextId: nat,
    events: seq<Events.Notice>,
    keys: set<Key>)

  // ----- identities -----

  function MissileIds(ms: seq<Missiles.Missile>): (ids: seq<nat>)
    ensures |ids| == |ms| && forall i :: 0 <= i < |ms| ==> ids[i] == ms[i].id
  {
    seq(|ms|, i requires 0 <= i < |ms| => ms[i].id)
  }

  function PackIds(ps: seq<MedPacks.MedPack>): (ids: seq<nat>)
    ensures |ids| == |ps| && forall i :: 0 <= i < |ps| ==> ids[i] == ps[i].id
  {
    seq(|ps|, i requires 0 <= i < |ps| => ps[i].id)
  }

  function ExplosionIds(xs: seq<Explosions.Explosion>): (ids: seq<nat>)
    ensures |ids| == |xs| && forall i :: 0 <= i < |xs| ==> ids[i] == xs[i].id
  {
    seq(|xs|, i requires 0 <= i < |xs| => xs[i].id)
  }

  predicate Increasing(ids: seq<nat>) {
    forall i, j :: 0 <= i < j < |ids| ==> ids[i] < ids[j]
  }

  /** Identities handed out in increasing order, all below the next one to hand out. */
  predicate FreshIds(ids: seq<nat>, next: nat) {
    Increasing(ids) && forall i :: 0 <= i < |ids| ==> ids[i] < next
  }

  // ----- the contents of allObjects -----

  function EnemyRefs(n: nat): (r: seq<Ref>)
    ensures |r| == n && forall i :: 0 <= i < n ==> r[i] == EnemyRef(i)
  {
    seq(n, i requires 0 <= i < n => EnemyRef(i))
  }

  function WallRefs(n: nat): (r: seq<Ref>)
    ensures |r| == n && forall i :: 0 <= i < n ==> r[i] == WallRef(i)
  {
    seq(n, i requires 0 <= i < n => WallRef(i))
  }

  function MissileRefs(ms: seq<Missiles.Missile>): (r: seq<Ref>)
    ensures |r| == |ms| && forall i :: 0 <= i < |ms| ==> r[i] == MissileRef(ms[i].id)
  {
    seq(|ms|, i requires 0 <= i < |ms| => MissileRef(ms[i].id))
  }

  function PackRefs(ps: seq<MedPacks.MedPack>): (r: seq<Ref>)
    ensures |r| == |ps| && forall i :: 0 <= i < |ps| ==> r[i] == MedPackRef(ps[i].id)
  {
    seq(|ps|, i requires 0 <= i < |ps| => MedPackRef(ps[i].id))
  }

  function ExplosionRefs(xs: seq<Explosions.Explosion>): (r: seq<Ref>)
    ensures |r| == |xs| && forall i :: 0 <= i < |xs| ==> r[i] == ExplosionRef(xs[i].id)
  {
    seq(|xs|, i requires 0 <= i < |xs| => ExplosionRef(xs[i].id))
  }

  /** What `allObjects` must hold: each object of the typed lists exactly once, in any order. */
  function Population(e: Engine): multiset<Ref> {
    Standing(e) + multiset(MissileRefs(e.missiles)) + multiset(PackRefs(e.medPacks)) + multiset(ExplosionRefs(e.explosions))
  }

  /** The references to the tanks and the walls, which `allObjects` holds for the whole game. */
  function Standing(e: Engine): multiset<Ref> {
    multiset{PlayerRef} + multiset(EnemyRefs(|e.enemies|)) + multiset(WallRefs(|e.walls|))
  }

  predicate Synced(e: Engine) {
    multiset(e.all) == Population(e)
  }

  // ----- resolving references -----

  /** The object a reference stands for, as generic code sees it. */
  function BodyOf(e: Engine, r: Ref): (b: Option<Body>)
    ensures b.Some? ==> b.value.ref == r
  {
    match r
    case PlayerRef => Some(Tanks.AsBody(e.player, PlayerRef))
    case EnemyRef(i) => if i < |e.enemies| then Some(Tanks.AsBody(e.enemies[i], r)) else None
    case WallRef(i) => if i < |e.walls| then Some(Walls.AsBody(e.walls[i], i)) else None
    case MissileRef(id) =>
      var k := IndexOf(MissileIds(e.missiles), id);
      if k < |e.missiles| then Some(Missiles.AsBody(e.missiles[k])) else None
    case MedPackRef(id) =>
      var k := IndexOf(PackIds(e.medPacks), id);
      if k < |e.medPacks| then Some(MedPacks.AsBody(e.medPacks[k])) else None
    case ExplosionRef(id) =>
      var k := IndexOf(ExplosionIds(e.explosions), id);
      if k < |e.explosions| then Some(Explosions.AsBody(e.explosions[k])) else None
  }

  /** The objects `refs` stand for, in the same order. */
  function Bodies(e: Engine, refs: seq<Ref>): (bs: seq<Body>)
    ensures forall r :: r in refs && BodyOf(e, r).Some? ==> BodyOf(e, r).value in bs
    decreases |refs|
  {
    if refs == [] then []
    else
      var rest := Bodies(e, refs[1..]);
      assert forall r :: r in refs && r != refs[0] ==> r in refs[1..];
      match BodyOf(e, refs[0])
      case Some(b) => [b] + rest
      case None => rest
  }

  /** The `allObjects` list handed to `Tank.move`. */
  function Obstacles(e: Engine): seq<Body> {
    Bodies(e, e.all)
  }

  /** Two engines that resolve every reference alike resolve a list of references alike. */
  lemma {:induction false} BodiesAgree(e: Engine, e': Engine, refs: seq<Ref>)
    requires forall r :: r in refs ==> BodyOf(e, r) == BodyOf(e', r)
    ensures Bodies(e, refs) == Bodies(e', refs)
    decreases |refs|
  {
    if refs != [] {
      BodiesAgree(e, e', refs[1..]);
    }
  }

  // ----- the invariant -----

  /**
   * The enemy list keeps the length it is created with, every wall stands,
   * and the player's spawn point is clear of the walls (walls are never
   * destroyed; that the course itself never changes is a frame property of
   * each update).
   */
  predicate Shaped(e: Engine) {
    && |e.enemies| == Arena.INITIAL_ENEMY_COUNT
    && (forall i :: 0 <= i < |e.walls| ==> e.walls[i].active)
    && SpawnClear(e.walls)
  }

  /** A tank at the player's spawn point is inside the map and overlaps no wall. */
  predicate SpawnClear(walls: seq<Walls.Wall>) {
    var b := Arena.TankBox(Arena.PLAYER_SPAWN_X, Arena.PLAYER_SPAWN_Y);
    InsideMap(b, Arena.MAP_WIDTH, Arena.MAP_HEIGHT) && forall w :: w in walls ==> !Intersects(b, w.box)
  }

  predicate Fresh(e: Engine) {
    && FreshIds(MissileIds(e.missiles), e.nextId)
    && FreshIds(PackIds(e.medPacks), e.nextId)
    && FreshIds(ExplosionIds(e.explosions), e.nextId)
  }

  /** A tank inside the map and overlapping none of the walls. */
  predicate Placed(t: Tanks.Tank, walls: seq<Walls.Wall>) {
    InsideMap(t.box, Arena.MAP_WIDTH, Arena.MAP_HEIGHT) && forall w :: w in walls ==> !Intersects(t.box, w.box)
  }

  predicate TanksPlaced(e: Engine) {
    Placed(e.player, e.walls) && forall i :: 0 <= i < |e.enemies| ==> Placed(e.enemies[i], e.walls)
  }

  /** Health within bounds, and a tank is active exactly while it has health left. */
  predicate Vital(t: Tanks.Tank) {
    0 <= t.health <= Tanks.MAX_HEALTH && (t.active <==> t.health > 0)
  }

  predicate TanksVital(e: Engine) {
    Vital(e.player) && forall i :: 0 <= i < |e.enemies| ==> Vital(e.enemies[i])
  }

  /** How many of the tanks are destroyed (inactive). */
  function Destroyed(ts: seq<Tanks.Tank>): (n: nat)
    ensures n <= |ts|
    ensures n == |ts| <==> forall i :: 0 <= i < |ts| ==> !ts[i].active
    ensures n == 0 <==> forall i :: 0 <= i < |ts| ==> ts[i].active
    decreases |ts|
  {
    if ts == [] then 0
    else (if ts[0].active then 0 else 1) + Destroyed(ts[1..])
  }

  /**
   * The score is 10 per destroyed enemy; the player's tank is alive exactly
   * while lives remain; a won game has no enemy left and a lost game no life.
   */
  predicate Ledger(e: Engine) {
    && e.score == 10 * Destroyed(e.enemies)
    && 0 <= e.lives <= Arena.INITIAL_LIVES
    && (e.player.active <==> e.lives > 0)
    && (e.state == Won ==> Destroyed(e.enemies) == |e.enemies|)
    && (e.state == Lost ==> e.lives == 0)
  }

  /** Minimum distance between the top-left corners of two med packs. */
  const PACK_SPACING: real := 180.0
  /** Bounds of the area med packs are placed in: [100, 900) x [100, 700). */
  const SPAWN_MIN: real := 100.0
  const SPAWN_SPAN_X: real := 800.0
  const SPAWN_SPAN_Y: real := 600.0

  function SqDist(x1: real, y1: real, x2: real, y2: real): real {
    (x1 - x2) * (x1 - x2) + (y1 - y2) * (y1 - y2)
  }

  /** A med pack at (x, y) would be at least `PACK_SPACING` away from `p`. */
  predicate FarFrom(x: real, y: real, p: MedPacks.MedPack) {
    SqDist(x, y, p.box.x, p.box.y) >= PACK_SPACING * PACK_SPACING
  }

  /** A well-placed med pack: standard size, in the spawn area, on no wall. */
  predicate PackSpot(p: MedPacks.MedPack, walls: seq<Walls.Wall>) {
    && p.box.w == MedPacks.MEDPACK_SIZE && p.box.h == MedPacks.MEDPACK_SIZE
    && SPAWN_MIN <= p.box.x < SPAWN_MIN + SPAWN_SPAN_X
    && SPAWN_MIN <= p.box.y < SPAWN_MIN + SPAWN_SPAN_Y
    && forall w :: w in walls ==> !Intersects(p.box, w.box)
  }

  predicate PacksPlaced(ps: seq<MedPacks.MedPack>, walls: seq<Walls.Wall>) {
    && (forall i :: 0 <= i < |ps| ==> PackSpot(ps[i], walls))
    && (forall i, j :: 0 <= i < j < |ps| ==> FarFrom(ps[j].box.x, ps[j].box.y, ps[i]))
  }

  predicate Valid(e: Engine) {
    && Shaped(e)
    && Synced(e)
    && Fresh(e)
    && TanksPlaced(e)
    && TanksVital(e)
    && Ledger(e)
    && PacksPlaced(e.medPacks, e.walls)
  }

  // ----- facts about the invariant's parts -----

  /** Every wall of the course is in `allObjects` and so among the obstacles of every move. */
  lemma {:induction false} WallsObstruct(e: Engine, i: nat)
    requires Synced(e) && i < |e.walls|
    ensures Walls.AsBody(e.walls[i], i) in Obstacles(e)
  {
    assert WallRefs(|e.walls|)[i] == WallRef(i);
    assert WallRef(i) in multiset(WallRefs(|e.walls|));
    assert WallRef(i) in Population(e);
    assert WallRef(i) in e.all;
    assert BodyOf(e, WallRef(i)) == Some(Walls.AsBody(e.walls[i], i));
  }

  /**
   * In a synced state the player's tank is referenced exactly once, so
   * dropping every player reference and adding one back leaves `allObjects`
   * synced.
   */
  lemma {:induction false} PlayerReferencedOnce(e: Engine)
    requires Synced(e)
    ensures multiset(e.all)[PlayerRef] == 1
    ensures multiset(RemoveAll(e.all, PlayerRef) + [PlayerRef]) == multiset(e.all)
  {
    assert PlayerRef !in EnemyRefs(|e.enemies|) && PlayerRef !in WallRefs(|e.walls|);
    assert PlayerRef !in MissileRefs(e.missiles) && PlayerRef !in PackRefs(e.medPacks);
    assert PlayerRef !in ExplosionRefs(e.explosions);
  }

  /** Changing one tank's state without changing whether it is active keeps the count of destroyed tanks. */
  lemma {:induction false} DestroyedAfterUpdate(ts: seq<Tanks.Tank>, j: nat, t: Tanks.Tank)
    requires j < |ts|
    ensures Destroyed(ts[j := t]) ==
              Destroyed(ts) - (if ts[j].active then 0 else 1) + (if t.active then 0 else 1)
    decreases |ts|
  {
    if j > 0 {
      DestroyedAfterUpdate(ts[1..], j - 1, t);
      assert ts[j := t][1..] == ts[1..][j - 1 := t];
    }
  }

  /** `r` holds the same references as `e`, in `allObjects` and in the typed lists alike. */
  predicate SameRoster(e: Engine, r: Engine) {
    && r.all == e.all && |r.enemies| == |e.enemies| && |r.walls| == |e.walls|
    && MissileRefs(r.missiles) == MissileRefs(e.missiles)
    && PackRefs(r.medPacks) == PackRefs(e.medPacks)
    && ExplosionRefs(r.explosions) == ExplosionRefs(e.explosions)
  }

  /** Changes that keep every reference leave `allObjects` in step. */
  lemma SameRosterSynced(e: Engine, r: Engine)
    requires SameRoster(e, r) && Synced(e)
    ensures Synced(r)
  {
    assert Standing(r) == Standing(e);
  }

  /** `r` has the same identities as `e` and hands out the same next one. */
  predicate SameIds(e: Engine, r: Engine) {
    && r.nextId == e.nextId
    && MissileIds(r.missiles) == MissileIds(e.missiles)
    && PackIds(r.medPacks) == PackIds(e.medPacks)
    && ExplosionIds(r.explosions) == ExplosionIds(e.explosions)
  }

  lemma SameIdsFresh(e: Engine, r: Engine)
    requires SameIds(e, r) && Fresh(e)
    ensures Fresh(r)
  {
  }

  // ----- adding and dropping objects, keeping allObjects in step -----

  /** `missiles.add(m); allObjects.add(m)`: the missile gets the next identity. */
  function AddMissile(e: Engine, m: Missiles.Missile): (r: Engine)
    ensures r == e.(missiles := r.missiles, all := r.all, nextId := e.nextId + 1)
    ensures |r.missiles| == |e.missiles| + 1 && r.missiles[..|e.missiles|] == e.missiles
    ensures r.missiles[|e.missiles|] == m.(id := e.nextId)
    ensures multiset(r.all) == multiset(e.all) + multiset{MissileRef(e.nextId)}
    ensures Fresh(e) ==> forall j :: 0 <= j < |e.missiles| ==> r.missiles[j].id < r.missiles[|e.missiles|].id
  {
    e.(missiles := e.missiles + [m.(id := e.nextId)], all := e.all + [MissileRef(e.nextId)], nextId := e.nextId + 1)
  }

  /** Adding a missile keeps `allObjects` in step and the identities fresh. */
  lemma AddMissileKeeps(e: Engine, m: Missiles.Missile)
    ensures Synced(e) ==> Synced(AddMissile(e, m))
    ensures Fresh(e) ==> Fresh(AddMissile(e, m))
  {
    if Synced(e) { AddMissileKeepsSync(e, m); }
    if Fresh(e) { AddMissileKeepsFresh(e, m); }
  }

  lemma AddMissileKeepsSync(e: Engine, m: Missiles.Missile)
    requires Synced(e)
    ensures Synced(AddMissile(e, m))
  {
    var r := AddMissile(e, m);
    assert MissileRefs(r.missiles) == MissileRefs(e.missiles) + [MissileRef(e.nextId)];
    AddToPart(e.all, Standing(e) + multiset(PackRefs(e.medPacks)) + multiset(ExplosionRefs(e.explosions)),
              multiset(MissileRefs(e.missiles)), MissileRef(e.nextId));
  }

  lemma AddMissileKeepsFresh(e: Engine, m: Missiles.Missile)
    requires Fresh(e)
    ensures Fresh(AddMissile(e, m))
  {
    var r := AddMissile(e, m);
    assert MissileIds(r.missiles) == MissileIds(e.missiles) + [e.nextId];
    FreshAppend(MissileIds(e.missiles), e.nextId);
    FreshLater(PackIds(e.medPacks), e.nextId);
    FreshLater(ExplosionIds(e.explosions), e.nextId);
  }

  /** `medPacks.add(p); allObjects.add(p)`: a new pack at (x, y) with the next identity. */
  function AddPack(e: Engine, x: real, y: real): (r: Engine)
    ensures r == e.(medPacks := r.medPacks, all := r.all, nextId := e.nextId + 1)
    ensures |r.medPacks| == |e.medPacks| + 1 && r.medPacks[..|e.medPacks|] == e.medPacks
    ensures r.medPacks[|e.medPacks|] == MedPacks.New(e.nextId, x, y)
    ensures multiset(r.all) == multiset(e.all) + multiset{MedPackRef(e.nextId)}
    ensures Fresh(e) ==> forall j :: 0 <= j < |e.medPacks| ==> r.medPacks[j].id < r.medPacks[|e.medPacks|].id
  {
    e.(medPacks := e.medPacks + [MedPacks.New(e.nextId, x, y)], all := e.all + [MedPackRef(e.nextId)], nextId := e.nextId + 1)
  }

  /** Adding a med pack keeps `allObjects` in step and the identities fresh. */
  lemma AddPackKeeps(e: Engine, x: real, y: real)
    ensures Synced(e) ==> Synced(AddPack(e, x, y))
    ensures Fresh(e) ==> Fresh(AddPack(e, x, y))
  {
    if Synced(e) { AddPackKeepsSync(e, x, y); }
    if Fresh(e) { AddPackKeepsFresh(e, x, y); }
  }

  lemma AddPackKeepsSync(e: Engine, x: real, y: real)
    requires Synced(e)
    ensures Synced(AddPack(e, x, y))
  {
    var r := AddPack(e, x, y);
    assert PackRefs(r.medPacks) == PackRefs(e.medPacks) + [MedPackRef(e.nextId)];
    AddToPart(e.all, Standing(e) + multiset(MissileRefs(e.missiles)) + multiset(ExplosionRefs(e.explosions)),
              multiset(PackRefs(e.medPacks)), MedPackRef(e.nextId));
  }

  lemma AddPackKeepsFresh(e: Engine, x: real, y: real)
    requires Fresh(e)
    ensures Fresh(AddPack(e, x, y))
  {
    var r := AddPack(e, x, y);
    assert PackIds(r.medPacks) == PackIds(e.medPacks) + [e.nextId];
    FreshAppend(PackIds(e.medPacks), e.nextId);
    FreshLater(MissileIds(e.missiles), e.nextId);
    FreshLater(ExplosionIds(e.explosions), e.nextId);
  }

  /** `explosions.add(x); allObjects.add(x)`: a new explosion centred on (cx, cy) with the next identity. */
  function AddExplosion(e: Engine, cx: real, cy: real): (r: Engine)
    ensures r == e.(explosions := r.explosions, all := r.all, nextId := e.nextId + 1)
    ensures |r.explosions| == |e.explosions| + 1 && r.explosions[..|e.explosions|] == e.explosions
    ensures r.explosions[|e.explosions|] == Explosions.New(e.nextId, cx, cy)
    ensures multiset(r.all) == multiset(e.all) + multiset{ExplosionRef(e.nextId)}
    ensures Fresh(e) ==> forall j :: 0 <= j < |e.explosions| ==> r.explosions[j].id < r.explosions[|e.explosions|].id
  {
    e.(explosions := e.explosions + [Explosions.New(e.nextId, cx, cy)], all := e.all + [ExplosionRef(e.nextId)],
       nextId := e.nextId + 1)
  }

  /** Adding an explosion keeps `allObjects` in step and the identities fresh. */
  lemma AddExplosionKeeps(e: Engine, cx: real, cy: real)
    ensures Synced(e) ==> Synced(AddExplosion(e, cx, cy))
    ensures Fresh(e) ==> Fresh(AddExplosion(e, cx, cy))
  {
    if Synced(e) { AddExplosionKeepsSync(e, cx, cy); }
    if Fresh(e) { AddExplosionKeepsFresh(e, cx, cy); }
  }

  lemma AddExplosionKeepsSync(e: Engine, cx: real, cy: real)
    requires Synced(e)
    ensures Synced(AddExplosion(e, cx, cy))
  {
    var r := AddExplosion(e, cx, cy);
    assert ExplosionRefs(r.explosions) == ExplosionRefs(e.explosions) + [ExplosionRef(e.nextId)];
    AddToPart(e.all, Standing(e) + multiset(MissileRefs(e.missiles)) + multiset(PackRefs(e.medPacks)),
              multiset(ExplosionRefs(e.explosions)), ExplosionRef(e.nextId));
  }

  lemma AddExplosionKeepsFresh(e: Engine, cx: real, cy: real)
    requires Fresh(e)
    ensures Fresh(AddExplosion(e, cx, cy))
  {
    var r := AddExplosion(e, cx, cy);
    assert ExplosionIds(r.explosions) == ExplosionIds(e.explosions) + [e.nextId];
    FreshAppend(ExplosionIds(e.explosions), e.nextId);
    FreshLater(MissileIds(e.missiles), e.nextId);
    FreshLater(PackIds(e.medPacks), e.nextId);
  }

  /** Appending `x` to a list whose contents are `rest + part` gives `rest + (part + {x})`. */
  lemma AddToPart<T>(s: seq<T>, rest: multiset<T>, part: multiset<T>, x: T)
    ensures multiset(s) == rest + part ==> multiset(s + [x]) == rest + (part + multiset{x})
  {
  }

  /** Handing out the next identity keeps the identities fresh. */
  lemma FreshAppend(ids: seq<nat>, next: nat)
    requires FreshIds(ids, next)
    ensures FreshIds(ids + [next], next + 1)
  {
  }

  lemma FreshLater(ids: seq<nat>, next: nat)
    requires FreshIds(ids, next)
    ensures FreshIds(ids, next + 1)
  {
  }

  /** The iterator's `remove()` on the med pack list plus `allObjects.remove(p)`. */
  function DropPack(e: Engine, i: nat): (r: Engine)
    requires i < |e.medPacks|
    ensures r == e.(medPacks := r.medPacks, all := r.all)
    ensures |r.medPacks| == |e.medPacks| - 1
    ensures r.medPacks[..i] == e.medPacks[..i] && r.medPacks[i..] == e.medPacks[i + 1..]
    ensures multiset(r.all) == multiset(e.all) - multiset{MedPackRef(e.medPacks[i].id)}
  {
    e.(medPacks := e.medPacks[..i] + e.medPacks[i + 1..], all := RemoveFirst(e.all, MedPackRef(e.medPacks[i].id)))
  }

  /** Removing a med pack keeps `allObjects` in step, the identities fresh and the rest well placed. */
  lemma DropPackKeepsParts(e: Engine, i: nat)
    requires i < |e.medPacks|
    ensures Synced(e) ==> Synced(DropPack(e, i))
    ensures Fresh(e) ==> Fresh(DropPack(e, i))
    ensures PacksPlaced(e.medPacks, e.walls) ==> PacksPlaced(DropPack(e, i).medPacks, e.walls)
  {
    if Synced(e) {
      DropPackKeepsSync(e, i);
    }
    RemoveAtKeepsOrder(e.medPacks, i, e.nextId, e.walls);
  }

  lemma DropPackKeepsSync(e: Engine, i: nat)
    requires i < |e.medPacks| && Synced(e)
    ensures Synced(e.(medPacks := e.medPacks[..i] + e.medPacks[i + 1..],
                      all := RemoveFirst(e.all, MedPackRef(e.medPacks[i].id))))
  {
    var ps := e.medPacks;
    var x := MedPackRef(ps[i].id);
    var r := e.(medPacks := ps[..i] + ps[i + 1..], all := RemoveFirst(e.all, x));
    PopulationApart(e);
    PopulationApart(r);
    RemoveAtKeepsRefs(ps, i);
    assert x in multiset(PackRefs(ps)) by {
      assert PackRefs(ps)[i] == x;
    }
    TakeFromPart(AllButPacks(e), multiset(PackRefs(ps)), multiset(PackRefs(r.medPacks)), x);
  }

  /** Everything `allObjects` must hold besides the med packs. */
  function AllButPacks(e: Engine): multiset<Ref> {
    Standing(e) + multiset(MissileRefs(e.missiles)) + multiset(ExplosionRefs(e.explosions))
  }

  lemma PopulationApart(e: Engine)
    ensures Population(e) == AllButPacks(e) + multiset(PackRefs(e.medPacks))
  {
  }

  /** Taking `x` out of a union takes it out of the part that holds it. */
  lemma TakeFromPart<T>(rest: multiset<T>, part: multiset<T>, part': multiset<T>, x: T)
    requires x in part && part' == part - multiset{x}
    ensures (rest + part) - multiset{x} == rest + part'
  {
  }

  lemma RemoveAtKeepsOrder(ps: seq<MedPacks.MedPack>, i: nat, next: nat, walls: seq<Walls.Wall>)
    requires i < |ps|
    ensures FreshIds(PackIds(ps), next) ==> FreshIds(PackIds(ps[..i] + ps[i + 1..]), next)
    ensures PacksPlaced(ps, walls) ==> PacksPlaced(ps[..i] + ps[i + 1..], walls)
  {
    var ps' := ps[..i] + ps[i + 1..];
    assert forall k :: 0 <= k < |ps'| ==> ps'[k] == ps[if k < i then k else k + 1];
  }

  lemma RemoveAtKeepsRefs(ps: seq<MedPacks.MedPack>, i: nat)
    requires i < |ps|
    ensures multiset(PackRefs(ps[..i] + ps[i + 1..])) == multiset(PackRefs(ps)) - multiset{MedPackRef(ps[i].id)}
  {
    assert PackRefs(ps) == PackRefs(ps)[..i] + [MedPackRef(ps[i].id)] + PackRefs(ps)[i + 1..];
    assert PackRefs(ps[..i] + ps[i + 1..]) == PackRefs(ps)[..i] + PackRefs(ps)[i + 1..];
  }
}
