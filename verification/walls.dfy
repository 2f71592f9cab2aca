/** `Wall`: an indestructible, solid, static obstacle. */
module Walls {
  import opened Geometry
  import opened Objects

  datatype Wall = Wall(box: Box, active: bool)

  /** The constructor: the box is exactly the arguments, and the wall is active. */
  function New(x: real, y: real, w: real, h: real): (r: Wall)
    ensures r.box == Box(x, y, w, h) && r.active
  {
    Wall(Box(x, y, w, h), true)
  }

  /** `update` does nothing. */
  function Update(w: Wall): (r: Wall)
    ensures r == w
  {
    w
  }

  /** Walls do not override `isSolid`, so they are solid. */
  function AsBody(w: Wall, index: nat): (b: Body)
    ensures b.ref == WallRef(index) && b.box == w.box && b.active == w.active && b.solid
  {
    Body(WallRef(index), w.box, w.active, true)
  }
}
