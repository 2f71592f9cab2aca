/** `MedPack`: a 30 x 30 non-solid health pickup with a pulsing animation timer. */
module MedPacks {
  import opened Geometry
  import opened Objects

  const MEDPACK_SIZE: real := 30.0
  const PULSE_STEP: real := 0.05

  datatype MedPack = MedPack(id: nat, box: Box, active: bool, pulse: real)

  /** The constructor: an active 30 x 30 pack at (x, y) with the pulse timer at 0. */
  function New(id: nat, x: real, y: real): (p: MedPack)
    ensures p.box == Box(x, y, MEDPACK_SIZE, MEDPACK_SIZE) && p.active && p.pulse == 0.0 && p.id == id
  {
    MedPack(id, Box(x, y, MEDPACK_SIZE, MEDPACK_SIZE), true, 0.0)
  }

  /** `update` advances only the pulse timer, which strictly increases. */
  function Update(p: MedPack): (r: MedPack)
    ensures r == p.(pulse := r.pulse)
    ensures r.pulse > p.pulse
  {
    p.(pulse := p.pulse + PULSE_STEP)
  }

  /** Med packs override `isSolid` to be non-solid. */
  function AsBody(p: MedPack): (b: Body)
    ensures b.ref == MedPackRef(p.id) && b.box == p.box && b.active == p.active && !b.solid
  {
    Body(MedPackRef(p.id), p.box, p.active, false)
  }

  /** The pack after `k` updates. */
  function UpdateN(p: MedPack, k: nat): MedPack
  {
    if k == 0 then p else Update(UpdateN(p, k - 1))
  }

  /** `k` updates add `k` pulse steps and leave position, size and active flag alone. */
  lemma {:induction false} PulseAccumulates(p: MedPack, k: nat)
    ensures UpdateN(p, k) == p.(pulse := p.pulse + k as real * PULSE_STEP)
  {
    if k > 0 {
      PulseAccumulates(p, k - 1);
    }
  }
}
