/**
 * `AggressiveMovementStrategy`: an enemy that pursues the player, recalculating
 * its heading at most every 90 calls, with the same stuck recovery and
 * oscillation breakout machinery as the wandering enemy (different thresholds),
 * and a slow random wander when there is no active opponent.
 */
module Chase {
  import opened Geometry
  import opened Wrappers
  import opened Steering

  const RECALCULATE_INTERVAL: nat := 90
  const MIN_DIRECTION_DURATION: nat := 30
  /** Period of the random heading changes when no opponent is active. */
  const WANDER_PERIOD: nat := 180
  /** Motionless calls (counted by `stuck`) from which every further one recovers. */
  const STUCK_FRAMES: nat := 3
  const LADDER: Ladder := Ladder(6, 9)
  const BREAKOUT_CALLS: nat := 45
  /** A centre delta below this on an axis means the tanks are aligned on it. */
  const ALIGN_TOLERANCE: real := 20.0
  /** Chance that a recalculation picks a random heading instead of pursuing. */
  const DEVIATION_CHANCE: real := 0.15

  datatype State = State(
    current: Direction,
    moveCounter: nat,
    lastX: real,
    lastY: real,
    stuck: nat,
    lastDirection: Direction,
    flips: nat,
    breakout: nat)

  /**
   * The random draws one call may consume: the wander pick, the recovery coin
   * and pick, the breakout coin, the deviation roll and its pick.
   */
  datatype Draws = Draws(
    wanderPick: Direction,
    recoverCoin: bool,
    recoverPick: Direction,
    breakoutCoin: bool,
    deviationRoll: real,
    deviationPick: Direction)

  /** The constructor: facing Down, towards the player's spawn area. */
  function Init(): (s: State)
    ensures s.current == Down && s.lastDirection == Down
    ensures s.lastX < 0.0 && s.lastY < 0.0
    ensures s.moveCounter == 0 && s.stuck == 0 && s.flips == 0 && s.breakout == 0
  {
    State(Down, 0, -1.0, -1.0, 0, Down, 0, 0)
  }

  /**
   * The pursuit heading towards an opponent whose centre is (dx, dy) away:
   * keep to the free axis when aligned on the other one, otherwise take the
   * axis with the larger delta (ties go vertical).
   */
  function Pursue(dx: real, dy: real): (r: Direction)
    ensures var xAligned := Abs(dx) < ALIGN_TOLERANCE;
            var yAligned := Abs(dy) < ALIGN_TOLERANCE;
            && (xAligned && !yAligned ==> r.IsVertical())
            && (yAligned && !xAligned ==> !r.IsVertical())
            && (xAligned == yAligned ==> (r.IsVertical() <==> Abs(dx) <= Abs(dy)))
    ensures r.IsVertical() ==> (r == Down <==> dy > 0.0)
    ensures !r.IsVertical() ==> (r == Right <==> dx > 0.0)
  {
    var xAligned := Abs(dx) < ALIGN_TOLERANCE;
    var yAligned := Abs(dy) < ALIGN_TOLERANCE;
    if xAligned && !yAligned then (if dy > 0.0 then Down else Up)
    else if yAligned && !xAligned then (if dx > 0.0 then Right else Left)
    else if Abs(dx) > Abs(dy) then (if dx > 0.0 then Right else Left)
    else (if dy > 0.0 then Down else Up)
  }

  /**
   * The pursuit heading never points away from the opponent, and it strictly
   * closes the gap on its own axis unless the two centres coincide.
   */
  lemma PursuitClosesIn(dx: real, dy: real)
    ensures var r := Pursue(dx, dy);
            && r.Dx() as real * dx >= 0.0 && r.Dy() as real * dy >= 0.0
            && (dx != 0.0 || dy != 0.0 ==> r.Dx() as real * dx + r.Dy() as real * dy > 0.0)
  {
    var r := Pursue(dx, dy);
    if r.IsVertical() {
      assert r.Dx() == 0;
      assert dy == 0.0 ==> dx == 0.0;
    } else {
      assert r.Dy() == 0;
      assert dx == 0.0 ==> dy == 0.0;
    }
  }

  /** Stuck detection; from the third motionless call on, every motionless call recovers. */
  function Detect(s: State, x: real, y: real, d: Draws): (r: State)
    ensures r.lastX == s.lastX && r.lastY == s.lastY
    ensures !Motionless(s.lastX, s.lastY, x, y) ==> r == s.(stuck := 0)
    ensures Motionless(s.lastX, s.lastY, x, y) && s.stuck + 1 < STUCK_FRAMES ==> r == s.(stuck := s.stuck + 1)
    ensures Motionless(s.lastX, s.lastY, x, y) && s.stuck + 1 >= STUCK_FRAMES ==>
              && r.moveCounter == 0 && r.lastDirection == s.current && r.flips <= 1
              && r.stuck == (if s.stuck + 1 < LADDER.perpendicularBelow then s.stuck + 1 else 0)
              && (r.breakout == BREAKOUT_CALLS || r.breakout == s.breakout)
    ensures Motionless(s.lastX, s.lastY, x, y) && s.stuck + 1 >= STUCK_FRAMES ==>
              var rung := Rung(s.current, s.stuck + 1, LADDER, d.recoverCoin, d.recoverPick);
              var flip := rung == s.lastDirection && rung == s.current.Opposite();
              && (flip && s.flips >= 1 ==>
                    r.breakout == BREAKOUT_CALLS && r.flips == 0 && r.current.IsVertical() != rung.IsVertical())
              && (!(flip && s.flips >= 1) ==>
                    r.breakout == s.breakout && r.current == rung && r.flips == (if flip then s.flips + 1 else 0))
  {
    if Motionless(s.lastX, s.lastY, x, y) then
      var stuck := s.stuck + 1;
      if stuck >= STUCK_FRAMES then
        var e := Recover(s.current, s.lastDirection, s.flips, stuck, LADDER,
                         d.recoverCoin, d.recoverPick, d.breakoutCoin);
        s.(current := e.current, lastDirection := e.lastDirection, flips := e.flips,
           breakout := if e.breakout then BREAKOUT_CALLS else s.breakout,
           stuck := e.stuck, moveCounter := 0)
      else
        s.(stuck := stuck)
    else
      s.(stuck := 0)
  }

  /**
   * Chase recalculation, only once the heading has been held long enough; the
   * heading, `lastDirection` and the counter change only when the choice differs.
   */
  function Recalculate(s: State, me: Box, opponent: Opponent, d: Draws): (r: State)
    ensures s.moveCounter < RECALCULATE_INTERVAL ==> r == s
    ensures r != s ==>
              && s.moveCounter >= RECALCULATE_INTERVAL && s.moveCounter >= MIN_DIRECTION_DURATION
              && r == s.(lastDirection := s.current, current := r.current, moveCounter := 0)
              && r.current != s.current
    ensures s.moveCounter >= RECALCULATE_INTERVAL && d.deviationRoll >= DEVIATION_CHANCE ==>
              var goal := Pursue(opponent.centerX - me.CenterX(), opponent.centerY - me.CenterY());
              r.current == goal
    ensures s.moveCounter >= RECALCULATE_INTERVAL && d.deviationRoll < DEVIATION_CHANCE ==>
              r.current == d.deviationPick
    ensures s.moveCounter >= RECALCULATE_INTERVAL ==> (r == s <==> r.current == s.current)
  {
    if s.moveCounter >= RECALCULATE_INTERVAL && s.moveCounter >= MIN_DIRECTION_DURATION then
      var heading :=
        if d.deviationRoll < DEVIATION_CHANCE then d.deviationPick
        else Pursue(opponent.centerX - me.CenterX(), opponent.centerY - me.CenterY());
      if heading != s.current then
        s.(lastDirection := s.current, current := heading, moveCounter := 0)
      else s
    else s
  }

  /**
   * The state a chasing call hands to `Recalculate`: stuck detection against
   * the previous sample (skipped on the first call), then the new sample and
   * one more call on the current heading.
   */
  function Observe(s: State, me: Box, d: Draws): (r: State)
    ensures r.lastX == me.x && r.lastY == me.y
    ensures s.lastX < 0.0 ==> r == s.(lastX := me.x, lastY := me.y, moveCounter := s.moveCounter + 1)
    ensures s.lastX >= 0.0 && !Motionless(s.lastX, s.lastY, me.x, me.y) ==>
              r == s.(lastX := me.x, lastY := me.y, moveCounter := s.moveCounter + 1, stuck := 0)
  {
    var sampled := if s.lastX >= 0.0 then Detect(s, me.x, me.y, d) else s;
    sampled.(lastX := me.x, lastY := me.y, moveCounter := sampled.moveCounter + 1)
  }

  /** One call of `getNextMove` for the tank with box `me`. */
  function Next(s: State, me: Box, opponent: Option<Opponent>, d: Draws): (r: (State, Direction))
    ensures r.1 == r.0.current
    ensures s.breakout > 0 ==> r.0 == s.(breakout := s.breakout - 1) && r.1 == s.current
    ensures s.breakout == 0 && (opponent.None? || !opponent.value.active) ==>
              && r.0 == s.(current := r.0.current, moveCounter := s.moveCounter + 1)
              && (s.moveCounter % WANDER_PERIOD != 0 ==> r.0.current == s.current)
              && (s.moveCounter % WANDER_PERIOD == 0 ==> r.0.current == d.wanderPick)
    ensures s.breakout == 0 && opponent.Some? && opponent.value.active ==>
              r.0 == Recalculate(Observe(s, me, d), me, opponent.value, d)
    ensures s.breakout == 0 && opponent.Some? && opponent.value.active && s.lastX >= 0.0
            && !Motionless(s.lastX, s.lastY, me.x, me.y) && s.moveCounter + 1 >= RECALCULATE_INTERVAL ==>
              && r.0.current == (if d.deviationRoll < DEVIATION_CHANCE then d.deviationPick
                                 else Pursue(opponent.value.centerX - me.CenterX(), opponent.value.centerY - me.CenterY()))
              && (r.0.current != s.current ==> r.0.moveCounter == 0 && r.0.lastDirection == s.current)
              && (r.0.current == s.current ==> r.0.moveCounter == s.moveCounter + 1)
    ensures s.breakout == 0 && opponent.Some? && opponent.value.active ==>
              r.0.lastX == me.x && r.0.lastY == me.y
    ensures (s.breakout == 0 && opponent.Some? && opponent.value.active && s.lastX >= 0.0
             && !Motionless(s.lastX, s.lastY, me.x, me.y)) ==> r.0.stuck == 0
  {
    if s.breakout > 0 then
      (s.(breakout := s.breakout - 1), s.current)
    else if opponent.None? || !opponent.value.active then
      var heading := if s.moveCounter % WANDER_PERIOD == 0 then d.wanderPick else s.current;
      (s.(current := heading, moveCounter := s.moveCounter + 1), heading)
    else
      var chased := Recalculate(Observe(s, me, d), me, opponent.value, d);
      (chased, chased.current)
  }

  /**
   * A recovery always resets the dwell counter, so the call that recovers
   * ends with the counter at 1 and no chase recalculation can follow it.
   */
  lemma RecoveryResetsDwell(s: State, me: Box, opponent: Opponent, d: Draws)
    requires s.breakout == 0 && opponent.active && s.lastX >= 0.0
    requires Motionless(s.lastX, s.lastY, me.x, me.y) && s.stuck + 1 >= STUCK_FRAMES
    ensures var r := Next(s, me, Some(opponent), d).0;
            r.moveCounter == 1 && r.lastDirection == s.current
  {
  }

  /**
   * The recovery ladder of a motionless tank chasing an active opponent:
   * recoveries happen at stuck counts 3 to 9; counts 3 to 5 reverse, 6 to 8
   * turn onto the other axis, and 9 takes the random pick and restarts the
   * count. Unless an oscillation breakout starts, the call ends on that rung.
   */
  lemma RecoverySchedule(s: State, me: Box, opponent: Opponent, d: Draws)
    requires Inv(s)
    requires s.breakout == 0 && opponent.active && s.lastX >= 0.0
    requires Motionless(s.lastX, s.lastY, me.x, me.y) && s.stuck + 1 >= STUCK_FRAMES
    ensures STUCK_FRAMES <= s.stuck + 1 <= LADDER.perpendicularBelow
    ensures var rung := Rung(s.current, s.stuck + 1, LADDER, d.recoverCoin, d.recoverPick);
            var r := Next(s, me, Some(opponent), d).0;
            && (s.stuck + 1 < LADDER.reverseBelow ==> rung == s.current.Opposite() && r.stuck == s.stuck + 1)
            && (LADDER.reverseBelow <= s.stuck + 1 < LADDER.perpendicularBelow ==>
                  rung.IsVertical() != s.current.IsVertical() && r.stuck == s.stuck + 1)
            && (s.stuck + 1 == LADDER.perpendicularBelow ==> rung == d.recoverPick && r.stuck == 0)
            && (r.breakout == 0 ==> r.current == rung)
  {
  }

  /** The reachable states: bounded stuck count, flip count and breakout window. */
  predicate Inv(s: State) {
    s.stuck < LADDER.perpendicularBelow && s.flips <= 1 && s.breakout <= BREAKOUT_CALLS
  }

  lemma InitEstablishesInv()
    ensures Inv(Init())
  {
  }

  /**
   * `Next` preserves `Inv`: a motionless streak climbs the ladder (reverse at
   * counts 3 to 5, perpendicular at 6 to 8) and the ninth motionless call picks
   * at random and restarts it.
   */
  lemma {:induction false} NextPreservesInv(s: State, me: Box, opponent: Option<Opponent>, d: Draws)
    requires Inv(s)
    ensures Inv(Next(s, me, opponent, d).0)
  {
  }

  /** One call's inputs: the tank's box, the opponent view and the random draws. */
  datatype Sample = Sample(me: Box, opponent: Option<Opponent>, draws: Draws)

  /** The state after a run of calls. */
  function Run(s: State, samples: seq<Sample>): State
    decreases |samples|
  {
    if samples == [] then s
    else Run(Next(s, samples[0].me, samples[0].opponent, samples[0].draws).0, samples[1..])
  }

  /** A breakout window of 45 calls: `k <= breakout` calls keep everything but the countdown. */
  lemma {:induction false} BreakoutWindowHoldsHeading(s: State, samples: seq<Sample>)
    requires |samples| <= s.breakout
    ensures Run(s, samples) == s.(breakout := s.breakout - |samples|)
    decreases |samples|
  {
    if samples != [] {
      BreakoutWindowHoldsHeading(s.(breakout := s.breakout - 1), samples[1..]);
    }
  }
}
