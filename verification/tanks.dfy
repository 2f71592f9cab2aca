/**
 * `Tank`: the player's and the enemies' 40 x 40 tanks, with health, facing,
 * a movement strategy, a speed, a side flag and a fire cooldown.
 *
 * The source's cooldown is 0.5 seconds lowered by 0.016 per update while
 * positive; it is still positive after 31 updates (0.004) and not after 32,
 * so it is modelled as a count of 32 updates.
 */
module Tanks {
  import opened Geometry
  import opened Wrappers
  import opened Objects
  import opened Strategies
  import Missiles

  const TANK_SIZE: real := 40.0
  const MAX_HEALTH: int := 100
  /** Updates during which a tank that has just fired cannot fire again. */
  const FIRE_COOLDOWN_TICKS: nat := 32

  datatype Tank = Tank(
    box: Box,
    active: bool,
    health: int,
    facing: Direction,
    strategy: Strategy,
    speed: real,
    isPlayer: bool,
    cooldown: nat)

  /** The constructor: an active 40 x 40 tank at (x, y), at full health, ready to fire. */
  function New(x: real, y: real, facing: Direction, strategy: Strategy, speed: real, isPlayer: bool): (t: Tank)
    ensures t.box == Box(x, y, TANK_SIZE, TANK_SIZE)
    ensures t.active && t.health == MAX_HEALTH && t.cooldown == 0
    ensures t.facing == facing && t.strategy == strategy && t.speed == speed && t.isPlayer == isPlayer
  {
    Tank(Box(x, y, TANK_SIZE, TANK_SIZE), true, MAX_HEALTH, facing, strategy, speed, isPlayer, 0)
  }

  /** Tanks do not override `isSolid`, so they are solid. */
  function AsBody(t: Tank, self: Ref): (b: Body)
    ensures b.ref == self && b.box == t.box && b.active == t.active && b.solid
  {
    Body(self, t.box, t.active, true)
  }

  /** `update`: lowers a positive cooldown by one update and changes nothing else. */
  function Update(t: Tank): (r: Tank)
    ensures r == t.(cooldown := r.cooldown)
    ensures t.cooldown > 0 ==> r.cooldown == t.cooldown - 1
    ensures t.cooldown == 0 ==> r.cooldown == 0
  {
    if t.cooldown > 0 then t.(cooldown := t.cooldown - 1) else t
  }

  /** The box one step of the tank's speed away in heading `d`. */
  function Candidate(t: Tank, d: Direction): (b: Box)
    ensures b == t.box.Shift(d.Dx() as real * t.speed, d.Dy() as real * t.speed)
  {
    t.box.Shift(StepX(d, t.speed), StepY(d, t.speed))
  }

  /**
   * `move`: a given heading becomes the facing even when the step is then
   * rejected. The step is atomic: it is taken whole when the new box stays in
   * the map and overlaps no other active solid object, and otherwise the
   * position is left exactly as it was.
   */
  function Move(t: Tank, self: Ref, heading: Option<Direction>, obstacles: seq<Body>,
                mapWidth: real, mapHeight: real): (r: Tank)
    ensures r.facing == (if heading.Some? then heading.value else t.facing)
    ensures r == t.(facing := r.facing, box := r.box)
    ensures var cand := Candidate(t, r.facing);
            && ((InsideMap(cand, mapWidth, mapHeight) && forall o :: o in obstacles ==> !Obstructs(o, self, cand))
                ==> r.box == cand)
            && (!InsideMap(cand, mapWidth, mapHeight) ==> r.box == t.box)
            && ((exists o :: o in obstacles && Obstructs(o, self, cand)) ==> r.box == t.box)
  {
    var facing := if heading.Some? then heading.value else t.facing;
    var cand := Candidate(t, facing);
    BlockedIffSomeObstruction(obstacles, self, cand);
    if !InsideMap(cand, mapWidth, mapHeight) then t.(facing := facing)
    else if Blocked(obstacles, self, cand) then t.(facing := facing)
    else t.(facing := facing, box := cand)
  }

  /**
   * Every position `Move` leaves is inside the map and clear of every other
   * active solid obstacle, provided the old one was; a tank never moves into
   * the map edge or into an obstacle.
   */
  lemma MoveKeepsPlacement(t: Tank, self: Ref, heading: Option<Direction>, obstacles: seq<Body>,
                           mapWidth: real, mapHeight: real)
    ensures var r := Move(t, self, heading, obstacles, mapWidth, mapHeight);
            && (r.box == t.box || r.box == Candidate(t, r.facing))
            && (r.box != t.box ==> InsideMap(r.box, mapWidth, mapHeight))
            && (r.box != t.box ==> forall o :: o in obstacles ==> !Obstructs(o, self, r.box))
            && (InsideMap(t.box, mapWidth, mapHeight) ==> InsideMap(r.box, mapWidth, mapHeight))
  {
  }

  /** The tank itself, listed among the obstacles anywhere, never stops its own move. */
  lemma MoveIgnoresSelf(t: Tank, self: Ref, heading: Option<Direction>, before: seq<Body>, after: seq<Body>,
                        mapWidth: real, mapHeight: real)
    ensures Move(t, self, heading, before + [AsBody(t, self)] + after, mapWidth, mapHeight)
         == Move(t, self, heading, before + after, mapWidth, mapHeight)
  {
    var facing := if heading.Some? then heading.value else t.facing;
    SelfNeverObstructs(before, AsBody(t, self), after, Candidate(t, facing));
  }

  /**
   * Where a missile fired in heading `d` starts: flush against that side of
   * the tank's box (sharing its edge) and centred on it.
   */
  predicate FlushAhead(m: Box, t: Box, d: Direction) {
    match d
    case Up => m.y + m.h == t.y && m.CenterX() == t.CenterX()
    case Down => m.y == t.y + t.h && m.CenterX() == t.CenterX()
    case Left => m.x + m.w == t.x && m.CenterY() == t.CenterY()
    case Right => m.x == t.x + t.w && m.CenterY() == t.CenterY()
  }

  /** A missile placed flush against a tank does not intersect it under the strict overlap test. */
  lemma FlushMissileMissesItsTank(m: Box, t: Box, d: Direction)
    requires FlushAhead(m, t, d)
    ensures !Intersects(m, t)
  {
    TouchingBoxesDoNotIntersect(m, t);
  }

  /**
   * `fire`: while the cooldown runs nothing happens and no missile is made;
   * otherwise the cooldown restarts and a missile owned by this tank's side
   * leaves flush against the facing side, flying in the facing direction.
   * `id` is the identity the new missile gets.
   */
  function Fire(t: Tank, id: nat): (r: (Tank, Option<Missiles.Missile>))
    ensures t.cooldown > 0 ==> r.0 == t && r.1 == None
    ensures t.cooldown == 0 ==>
              && r.0 == t.(cooldown := FIRE_COOLDOWN_TICKS)
              && r.1.Some?
              && r.1.value.id == id && r.1.value.active
              && r.1.value.dir == t.facing && r.1.value.ownerIsPlayer == t.isPlayer
              && r.1.value.box.w == Missiles.MISSILE_SIZE && r.1.value.box.h == Missiles.MISSILE_SIZE
              && FlushAhead(r.1.value.box, t.box, t.facing)
              && !Intersects(r.1.value.box, t.box)
  {
    if t.cooldown > 0 then (t, None)
    else
      var b := t.box;
      var (mx, my) :=
        match t.facing
        case Up => (b.x + b.w / 2.0 - 5.0, b.y - 10.0)
        case Down => (b.x + b.w / 2.0 - 5.0, b.y + b.h)
        case Left => (b.x - 10.0, b.y + b.h / 2.0 - 5.0)
        case Right => (b.x + b.w, b.y + b.h / 2.0 - 5.0);
      var m := Missiles.New(id, mx, my, t.facing, t.isPlayer);
      FlushMissileMissesItsTank(m.box, t.box, t.facing);
      (t.(cooldown := FIRE_COOLDOWN_TICKS), Some(m))
  }

  /**
   * `takeDamage`: health becomes max(0, health - damage); reaching 0 makes the
   * tank inactive, and nothing else changes.
   */
  function TakeDamage(t: Tank, damage: int): (r: Tank)
    ensures r.health == (if t.health - damage > 0 then t.health - damage else 0)
    ensures r.active <==> t.active && t.health - damage > 0
    ensures r == t.(health := r.health, active := r.active)
  {
    var h := t.health - damage;
    if h <= 0 then t.(health := 0, active := false) else t.(health := h)
  }

  /** `heal`: full health whatever it was before; the active flag is not touched. */
  function Heal(t: Tank): (r: Tank)
    ensures r == t.(health := MAX_HEALTH)
  {
    t.(health := MAX_HEALTH)
  }

  /** Health stays within [0, MAX_HEALTH], and a tank at 0 health is inactive. */
  predicate Sound(t: Tank) {
    0 <= t.health <= MAX_HEALTH && (t.health == 0 ==> !t.active)
  }

  /**
   * Non-negative damage, healing, moving, firing and cooldown updates all keep
   * a tank `Sound`, and none of them brings an inactive tank back.
   */
  lemma OperationsKeepSound(t: Tank, damage: int, self: Ref, heading: Option<Direction>,
                            obstacles: seq<Body>, mapWidth: real, mapHeight: real, id: nat)
    requires Sound(t) && damage >= 0
    ensures Sound(TakeDamage(t, damage)) && Sound(Heal(t)) && Sound(Update(t))
    ensures Sound(Move(t, self, heading, obstacles, mapWidth, mapHeight)) && Sound(Fire(t, id).0)
    ensures !t.active ==>
              && !TakeDamage(t, damage).active && !Heal(t).active && !Update(t).active
              && !Move(t, self, heading, obstacles, mapWidth, mapHeight).active && !Fire(t, id).0.active
  {
  }

  /** Four missile hits destroy a full-health tank; three leave it active with a quarter of its health. */
  lemma FourHitsDestroy(t: Tank)
    requires t.active && t.health == MAX_HEALTH
    ensures var three := TakeDamage(TakeDamage(TakeDamage(t, Missiles.DAMAGE), Missiles.DAMAGE), Missiles.DAMAGE);
            && three.active && three.health == 25
            && !TakeDamage(three, Missiles.DAMAGE).active && TakeDamage(three, Missiles.DAMAGE).health == 0
  {
  }

  /** The tank after `k` updates. */
  function UpdateN(t: Tank, k: nat): Tank
  {
    if k == 0 then t else Update(UpdateN(t, k - 1))
  }

  /** `k` updates lower the cooldown by `k`, stopping at 0. */
  lemma {:induction false} CooldownCountsDown(t: Tank, k: nat)
    ensures UpdateN(t, k) == t.(cooldown := if t.cooldown >= k then t.cooldown - k else 0)
  {
    if k > 0 {
      CooldownCountsDown(t, k - 1);
    }
  }

  /**
   * After a shot, a tank can fire again exactly when at least
   * `FIRE_COOLDOWN_TICKS` updates have passed.
   */
  lemma {:induction false} FireWindow(t: Tank, id: nat, k: nat, id2: nat)
    requires t.cooldown == 0
    ensures Fire(UpdateN(Fire(t, id).0, k), id2).1.Some? <==> k >= FIRE_COOLDOWN_TICKS
  {
    CooldownCountsDown(Fire(t, id).0, k);
  }
}
