/**
 * The pieces the two computer-controlled movement strategies share: the
 * motionless test, the perpendicular turn, the escalating recovery ladder with
 * its oscillation guard, and the view of the opponent a strategy is given.
 *
 * Every `java.util.Random` draw is an explicit argument: `coin` stands for a
 * `nextBoolean()`, `pick` for `Direction.values()[nextInt(4)]`.
 */
module Steering {
  import opened Geometry

  /** A position change below this on both axes counts as "not moving". */
  const STUCK_EPSILON: real := 0.1

  /** What a strategy may read of the opponent tank: its active flag and centre. */
  datatype Opponent = Opponent(active: bool, centerX: real, centerY: real)

  function Abs(v: real): (r: real)
    ensures r >= 0.0 && (r == v || r == -v)
  {
    if v < 0.0 then -v else v
  }

  /** Neither coordinate moved by `STUCK_EPSILON` or more since the last sample. */
  predicate Motionless(lastX: real, lastY: real, x: real, y: real) {
    Abs(x - lastX) < STUCK_EPSILON && Abs(y - lastY) < STUCK_EPSILON
  }

  /**
   * A 90-degree turn: from a vertical heading to Left or Right, from a
   * horizontal heading to Up or Down, the coin choosing which.
   */
  function Perpendicular(d: Direction, coin: bool): (r: Direction)
    ensures r.IsVertical() != d.IsVertical()
    ensures coin ==> r.Dx() + r.Dy() < 0
    ensures !coin ==> r.Dx() + r.Dy() > 0
  {
    if d.IsVertical() then (if coin then Left else Right)
    else (if coin then Up else Down)
  }

  /** Every heading on the other axis is reachable by some coin. */
  lemma PerpendicularReachesOtherAxis(d: Direction, e: Direction)
    requires e.IsVertical() != d.IsVertical()
    ensures Perpendicular(d, true) == e || Perpendicular(d, false) == e
  {
  }

  /**
   * Thresholds of the recovery ladder: reverse while the stuck count is below
   * `reverseBelow`, turn perpendicular while it is below `perpendicularBelow`,
   * and pick at random (restarting the count) from there on.
   */
  datatype Ladder = Ladder(reverseBelow: nat, perpendicularBelow: nat)

  /** The heading the ladder proposes for a given stuck count. */
  function Rung(current: Direction, stuck: nat, ladder: Ladder, coin: bool, pick: Direction): (r: Direction)
    ensures stuck < ladder.reverseBelow ==> r == current.Opposite()
    ensures ladder.reverseBelow <= stuck < ladder.perpendicularBelow ==> r.IsVertical() != current.IsVertical()
    ensures ladder.reverseBelow <= stuck && ladder.perpendicularBelow <= stuck ==> r == pick
  {
    if stuck < ladder.reverseBelow then current.Opposite()
    else if stuck < ladder.perpendicularBelow then Perpendicular(current, coin)
    else pick
  }

  /** What one recovery step leaves behind. */
  datatype Escape = Escape(current: Direction, lastDirection: Direction, flips: nat, breakout: bool, stuck: nat)

  /**
   * One recovery step of a stuck tank, with the oscillation guard: a rung that
   * reverses the heading back to the one held before the previous recovery
   * counts as a flip; the second flip in a row forces a perpendicular heading
   * (`breakout`), which the caller then holds for a fixed number of calls.
   */
  function Recover(current: Direction, lastDirection: Direction, flips: nat, stuck: nat,
                   ladder: Ladder, coin: bool, pick: Direction, breakoutCoin: bool): (e: Escape)
    ensures e.lastDirection == current
    ensures e.stuck == (if stuck < ladder.perpendicularBelow then stuck else 0)
    ensures e.flips <= 1
    ensures var rung := Rung(current, stuck, ladder, coin, pick);
            var flip := rung == lastDirection && rung == current.Opposite();
            && (e.breakout <==> flip && flips >= 1)
            && (!e.breakout ==> e.current == rung && e.flips == (if flip then flips + 1 else 0))
            && (e.breakout ==> e.current.IsVertical() != rung.IsVertical() && e.flips == 0)
  {
    var rung := Rung(current, stuck, ladder, coin, pick);
    var newStuck := if stuck < ladder.perpendicularBelow then stuck else 0;
    var newFlips := if rung == lastDirection && rung == current.Opposite() then flips + 1 else 0;
    if newFlips >= 2 then Escape(Perpendicular(rung, breakoutCoin), current, 0, true, newStuck)
    else Escape(rung, current, newFlips, false, newStuck)
  }
}
