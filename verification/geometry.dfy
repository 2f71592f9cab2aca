/**
 * Headings and axis-aligned boxes: the geometry every game object shares.
 *
 * Screen coordinates are used throughout: x grows to the right and y grows
 * downwards, so `Up` decreases y. Coordinates are exact reals; the game only
 * adds and compares them.
 */
module Geometry {

  /** The four headings, in the order `Direction.values()` lists them. */
  datatype Direction = Up | Down | Left | Right {

    predicate IsVertical() {
      this == Up || this == Down
    }

    /** Unit step along x: Right is +1, Left is -1, vertical headings do not move in x. */
    function Dx(): (dx: int)
      ensures IsVertical() ==> dx == 0
      ensures dx > 0 <==> this == Right
      ensures dx < 0 <==> this == Left
      ensures -1 <= dx <= 1
    {
      match this
      case Left => -1
      case Right => 1
      case _ => 0
    }

    /** Unit step along y: Down is +1, Up is -1 (Up decreases y). */
    function Dy(): (dy: int)
      ensures !IsVertical() ==> dy == 0
      ensures dy > 0 <==> this == Down
      ensures dy < 0 <==> this == Up
      ensures -1 <= dy <= 1
    {
      match this
      case Up => -1
      case Down => 1
      case _ => 0
    }

    /** The reverse heading: same axis, negated step. */
    function Opposite(): (r: Direction)
      ensures r != this
      ensures r.IsVertical() == IsVertical()
      ensures r.Dx() == -Dx() && r.Dy() == -Dy()
    {
      match this
      case Up => Down
      case Down => Up
      case Left => Right
      case Right => Left
    }
  }

  lemma OppositeIsInvolution(d: Direction)
    ensures d.Opposite().Opposite() == d
  {
  }

  /** Displacement along x of a step of length `v` in heading `d` (`d.getDx() * v`). */
  function StepX(d: Direction, v: real): (r: real)
    ensures r == d.Dx() as real * v
  {
    match d
    case Left => -v
    case Right => v
    case _ => 0.0
  }

  /** Displacement along y of a step of length `v` in heading `d` (`d.getDy() * v`). */
  function StepY(d: Direction, v: real): (r: real)
    ensures r == d.Dy() as real * v
  {
    match d
    case Up => -v
    case Down => v
    case _ => 0.0
  }

  /** An axis-aligned box: top-left corner, width and height. */
  datatype Box = Box(x: real, y: real, w: real, h: real) {

    function CenterX(): real {
      x + w / 2.0
    }

    function CenterY(): real {
      y + h / 2.0
    }

    /** The same box moved by (dx, dy). */
    function Shift(dx: real, dy: real): (r: Box)
      ensures r.w == w && r.h == h
      ensures r.x - x == dx && r.y - y == dy
    {
      Box(x + dx, y + dy, w, h)
    }

    /** The point (px, py) lies strictly inside the box. */
    predicate HasInterior(px: real, py: real) {
      x < px < x + w && y < py < y + h
    }
  }

  /**
   * The overlap test of `GameObject.intersects`: strict on all four sides, so
   * boxes that only share an edge or a corner do not intersect.
   */
  predicate Intersects(a: Box, b: Box) {
    && a.x < b.x + b.w
    && a.x + a.w > b.x
    && a.y < b.y + b.h
    && a.y + a.h > b.y
  }

  /** The box lies within [0, width] x [0, height]. */
  predicate InsideMap(b: Box, width: real, height: real) {
    0.0 <= b.x && b.x + b.w <= width && 0.0 <= b.y && b.y + b.h <= height
  }

  /** The centre point is the middle of both sides. */
  lemma CenterIsMidpoint(b: Box)
    ensures b.CenterX() - b.x == (b.x + b.w) - b.CenterX()
    ensures b.CenterY() - b.y == (b.y + b.h) - b.CenterY()
  {
  }

  lemma IntersectsIsSymmetric(a: Box, b: Box)
    ensures Intersects(a, b) <==> Intersects(b, a)
  {
  }

  /** Boxes that share only an edge (or a corner) do not intersect. */
  lemma TouchingBoxesDoNotIntersect(a: Box, b: Box)
    requires a.x + a.w == b.x || b.x + b.w == a.x || a.y + a.h == b.y || b.y + b.h == a.y
    ensures !Intersects(a, b)
  {
  }

  /** Any box with positive width and height intersects itself. */
  lemma NonEmptyBoxIntersectsItself(b: Box)
    requires b.w > 0.0 && b.h > 0.0
    ensures Intersects(b, b)
  {
  }

  /**
   * For boxes of positive size, the strict overlap test holds exactly when the
   * two boxes have an interior point in common.
   */
  lemma {:induction false} IntersectsIffCommonInteriorPoint(a: Box, b: Box)
    requires a.w > 0.0 && a.h > 0.0 && b.w > 0.0 && b.h > 0.0
    ensures Intersects(a, b) <==> exists px, py :: a.HasInterior(px, py) && b.HasInterior(px, py)
  {
    if Intersects(a, b) {
      var lx := if a.x < b.x then b.x else a.x;
      var hx := if a.x + a.w < b.x + b.w then a.x + a.w else b.x + b.w;
      var ly := if a.y < b.y then b.y else a.y;
      var hy := if a.y + a.h < b.y + b.h then a.y + a.h else b.y + b.h;
      var px, py := (lx + hx) / 2.0, (ly + hy) / 2.0;
      assert a.HasInterior(px, py) && b.HasInterior(px, py);
    }
  }
}
