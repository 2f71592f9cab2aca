/**
 * `Missile`: a 10 x 10 projectile flying in a fixed heading at a fixed speed,
 * carrying fixed damage. The owning tank is remembered only by its side
 * (player or enemy), which is all the engine ever asks of it.
 */
module Missiles {
  import opened Geometry
  import opened Objects

  const MISSILE_SIZE: real := 10.0
  const MISSILE_SPEED: real := 5.0
  const DAMAGE: int := 25

  datatype Missile = Missile(id: nat, box: Box, active: bool, dir: Direction, ownerIsPlayer: bool)

  /** The constructor: a fresh, active 10 x 10 missile at (x, y). */
  function New(id: nat, x: real, y: real, dir: Direction, ownerIsPlayer: bool): (m: Missile)
    ensures m.box == Box(x, y, MISSILE_SIZE, MISSILE_SIZE) && m.active
    ensures m.id == id && m.dir == dir && m.ownerIsPlayer == ownerIsPlayer
  {
    Missile(id, Box(x, y, MISSILE_SIZE, MISSILE_SIZE), true, dir, ownerIsPlayer)
  }

  /** Missiles do not override `isSolid`, so they are solid. */
  function AsBody(m: Missile): (b: Body)
    ensures b.ref == MissileRef(m.id) && b.box == m.box && b.active == m.active && b.solid
  {
    Body(MissileRef(m.id), m.box, m.active, true)
  }

  /**
   * `update`: one step of `MISSILE_SPEED` along the heading. Nothing but the
   * position changes; in particular the heading and the owner side stay fixed.
   */
  function Advance(m: Missile): (r: Missile)
    ensures r.box == m.box.Shift(m.dir.Dx() as real * MISSILE_SPEED, m.dir.Dy() as real * MISSILE_SPEED)
    ensures r == m.(box := r.box)
  {
    m.(box := m.box.Shift(StepX(m.dir, MISSILE_SPEED), StepY(m.dir, MISSILE_SPEED)))
  }

  /**
   * `isOutOfBounds`: only the top-left corner is tested, against the
   * inclusive bounds [0, width] x [0, height].
   */
  predicate OutOfBounds(m: Missile, width: real, height: real) {
    m.box.x < 0.0 || m.box.x > width || m.box.y < 0.0 || m.box.y > height
  }

  /** The bounds test ignores the missile's size: a corner on the far edge is still in bounds. */
  lemma OutOfBoundsIgnoresSize(m: Missile, width: real, height: real, w: real, h: real)
    ensures OutOfBounds(m, width, height) == OutOfBounds(m.(box := Box(m.box.x, m.box.y, w, h)), width, height)
    ensures width >= 0.0 && height >= 0.0 ==> !OutOfBounds(m.(box := Box(width, height, w, h)), width, height)
  {
  }

  /** The missile after `k` updates. */
  function AdvanceN(m: Missile, k: nat): Missile
  {
    if k == 0 then m else Advance(AdvanceN(m, k - 1))
  }

  /** `k` updates move the missile `k * MISSILE_SPEED` along its heading and change nothing else. */
  lemma {:induction false} AdvanceNDisplacement(m: Missile, k: nat)
    ensures AdvanceN(m, k) == m.(box := m.box.Shift(StepX(m.dir, k as real * MISSILE_SPEED), StepY(m.dir, k as real * MISSILE_SPEED)))
  {
    if k > 0 {
      AdvanceNDisplacement(m, k - 1);
    }
  }

  /** Enough updates for a missile to pass the edge of the map it is heading to. */
  function StepsToLeave(m: Missile, width: real, height: real): nat
  {
    var gap :=
      match m.dir
      case Up => m.box.y
      case Down => height - m.box.y
      case Left => m.box.x
      case Right => width - m.box.x;
    if gap < 0.0 then 0 else (gap / MISSILE_SPEED).Floor + 1
  }

  /** Every missile left to fly eventually goes out of bounds, so the engine removes it. */
  lemma {:induction false} EveryMissileLeaves(m: Missile, width: real, height: real)
    ensures OutOfBounds(AdvanceN(m, StepsToLeave(m, width, height)), width, height)
  {
    var k := StepsToLeave(m, width, height);
    AdvanceNDisplacement(m, k);
  }
}
