/**
 * `Explosion`: a 60 x 60 non-solid effect centred on a destroyed tank, playing
 * 11 frames. The frame timer of the source adds 0.016 per update and advances
 * the frame once it reaches 0.05, which happens on every fourth update; the
 * timer is modelled as that count of updates.
 */
module Explosions {
  import opened Geometry
  import opened Objects

  const EXPLOSION_SIZE: real := 60.0
  /** Updates per frame: 3 * 0.016 < 0.05 <= 4 * 0.016. */
  const FRAME_TICKS: nat := 4
  const TOTAL_FRAMES: nat := 11

  datatype Explosion = Explosion(id: nat, box: Box, active: bool, frame: nat, timer: nat)

  /** The constructor: a 60 x 60 box centred on (cx, cy), at frame 0 with the timer at 0. */
  function New(id: nat, cx: real, cy: real): (e: Explosion)
    ensures e.box.w == EXPLOSION_SIZE && e.box.h == EXPLOSION_SIZE
    ensures e.box.CenterX() == cx && e.box.CenterY() == cy
    ensures e.active && e.frame == 0 && e.timer == 0 && e.id == id
  {
    Explosion(id, Box(cx - EXPLOSION_SIZE / 2.0, cy - EXPLOSION_SIZE / 2.0, EXPLOSION_SIZE, EXPLOSION_SIZE), true, 0, 0)
  }

  /**
   * `update`: when the timer reaches a frame's duration the frame advances by
   * exactly one and the timer restarts; past the last frame the explosion is
   * inactive. The frame never decreases and nothing reactivates it.
   */
  function Update(e: Explosion): (r: Explosion)
    ensures r.id == e.id && r.box == e.box
    ensures e.timer + 1 >= FRAME_TICKS ==> r.frame == e.frame + 1 && r.timer == 0
    ensures e.timer + 1 < FRAME_TICKS ==> r.frame == e.frame && r.timer == e.timer + 1
    ensures r.active <==> e.active && (r.frame == e.frame || r.frame < TOTAL_FRAMES)
  {
    var t := e.timer + 1;
    if t >= FRAME_TICKS then
      var frame := e.frame + 1;
      e.(timer := 0, frame := frame, active := if frame >= TOTAL_FRAMES then false else e.active)
    else
      e.(timer := t)
  }

  /** Explosions override `isSolid` to be non-solid. */
  function AsBody(e: Explosion): (b: Body)
    ensures b.ref == ExplosionRef(e.id) && b.box == e.box && b.active == e.active && !b.solid
  {
    Body(ExplosionRef(e.id), e.box, e.active, false)
  }

  /** The explosion after `k` updates. */
  function UpdateN(e: Explosion, k: nat): Explosion
  {
    if k == 0 then e else Update(UpdateN(e, k - 1))
  }

  /**
   * The whole life of an explosion: after `k` updates it shows frame `k / 4`,
   * and it turns inactive on exactly its 44th update (11 frames of 4 updates).
   */
  lemma {:induction false} Lifetime(id: nat, cx: real, cy: real, k: nat)
    ensures var e := New(id, cx, cy);
            UpdateN(e, k) == e.(frame := k / FRAME_TICKS, timer := k % FRAME_TICKS,
                                active := k < FRAME_TICKS * TOTAL_FRAMES)
  {
    if k > 0 {
      Lifetime(id, cx, cy, k - 1);
    }
  }
}
