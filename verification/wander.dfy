/**
 * `RandomMovementStrategy`: an enemy that wanders, holding each heading for
 * 180 to 300 calls, with stuck detection, an escalating recovery ladder and an
 * oscillation breakout window. One call of `getNextMove` is `Next`, a pure
 * function from the strategy's state to its new state and heading.
 */
module Wander {
  import opened Geometry
  import opened Steering

  const MIN_MOVE_DURATION: nat := 180
  const MAX_MOVE_DURATION: nat := 300
  /** Consecutive motionless calls that trigger a recovery. */
  const STUCK_FRAMES: nat := 3
  const LADDER: Ladder := Ladder(5, 10)
  /** Calls a breakout heading is held for. */
  const BREAKOUT_CALLS: nat := 60
  /** Per-call chance of a voluntary change once the minimum dwell has passed. */
  const CHANGE_CHANCE: real := 0.02
  /** Chance that a voluntary change is a 90-degree turn. */
  const TURN_CHANCE: real := 0.8

  datatype State = State(
    current: Direction,
    moveCounter: nat,
    lastX: real,
    lastY: real,
    stuck: nat,
    consecutiveStuck: nat,
    lastDirection: Direction,
    flips: nat,
    breakout: nat)

  /**
   * The random draws one call may consume: the recovery coin and pick, the
   * breakout coin, the voluntary-change roll, the turn roll, and the turn's
   * coin and pick.
   */
  datatype Draws = Draws(
    recoverCoin: bool,
    recoverPick: Direction,
    breakoutCoin: bool,
    changeRoll: real,
    turnRoll: real,
    turnCoin: bool,
    turnPick: Direction)

  /** The constructor; `start` is its `nextInt(4)` draw. */
  function Init(start: Direction): (s: State)
    ensures s.current == start && s.lastDirection == start
    ensures s.lastX < 0.0 && s.lastY < 0.0
    ensures s.moveCounter == 0 && s.stuck == 0 && s.consecutiveStuck == 0
    ensures s.flips == 0 && s.breakout == 0
  {
    State(start, 0, -1.0, -1.0, 0, 0, start, 0, 0)
  }

  /** Stuck detection against the previous sample (only run once a sample exists). */
  function Detect(s: State, x: real, y: real, d: Draws): (r: State)
    ensures r.lastX == s.lastX && r.lastY == s.lastY
    ensures !Motionless(s.lastX, s.lastY, x, y) ==> r == s.(consecutiveStuck := 0, stuck := 0)
    ensures Motionless(s.lastX, s.lastY, x, y) && s.consecutiveStuck + 1 < STUCK_FRAMES ==>
              r == s.(consecutiveStuck := s.consecutiveStuck + 1, stuck := s.stuck + 1)
    ensures Motionless(s.lastX, s.lastY, x, y) && s.consecutiveStuck + 1 >= STUCK_FRAMES ==>
              && r.consecutiveStuck == 0 && r.moveCounter == 0
              && r.lastDirection == s.current
              && r.flips <= 1
              && r.stuck == (if s.stuck + 1 < LADDER.perpendicularBelow then s.stuck + 1 else 0)
              && (r.breakout == BREAKOUT_CALLS || r.breakout == s.breakout)
    ensures Motionless(s.lastX, s.lastY, x, y) && s.consecutiveStuck + 1 >= STUCK_FRAMES ==>
              var rung := Rung(s.current, s.stuck + 1, LADDER, d.recoverCoin, d.recoverPick);
              var flip := rung == s.lastDirection && rung == s.current.Opposite();
              && (flip && s.flips >= 1 ==>
                    r.breakout == BREAKOUT_CALLS && r.flips == 0 && r.current.IsVertical() != rung.IsVertical())
              && (!(flip && s.flips >= 1) ==>
                    r.breakout == s.breakout && r.current == rung && r.flips == (if flip then s.flips + 1 else 0))
  {
    if Motionless(s.lastX, s.lastY, x, y) then
      var consecutive := s.consecutiveStuck + 1;
      var stuck := s.stuck + 1;
      if consecutive >= STUCK_FRAMES then
        var e := Recover(s.current, s.lastDirection, s.flips, stuck, LADDER,
                         d.recoverCoin, d.recoverPick, d.breakoutCoin);
        s.(current := e.current, lastDirection := e.lastDirection, flips := e.flips,
           breakout := if e.breakout then BREAKOUT_CALLS else s.breakout,
           stuck := e.stuck, consecutiveStuck := 0, moveCounter := 0)
      else
        s.(consecutiveStuck := consecutive, stuck := stuck)
    else
      s.(consecutiveStuck := 0, stuck := 0)
  }

  /**
   * Voluntary change of heading: only after the minimum dwell with no stuck
   * streak, by chance or forced at the maximum dwell; usually a 90-degree turn.
   */
  function Turn(s: State, d: Draws): (r: State)
    ensures r.moveCounter != s.moveCounter ==>
              s.consecutiveStuck == 0 && s.moveCounter >= MIN_MOVE_DURATION && r.moveCounter == 0
    ensures s.consecutiveStuck == 0 && s.moveCounter >= MAX_MOVE_DURATION ==> r.moveCounter == 0
    ensures r.moveCounter == 0 && s.moveCounter != 0 ==>
              r.lastDirection == s.current &&
              (d.turnRoll < TURN_CHANCE ==> r.current.IsVertical() != s.current.IsVertical())
    ensures s.consecutiveStuck == 0 && s.moveCounter >= MIN_MOVE_DURATION && d.changeRoll < CHANGE_CHANCE ==>
              r.moveCounter == 0
    ensures r.moveCounter == 0 && s.moveCounter != 0 && d.turnRoll >= TURN_CHANCE ==> r.current == d.turnPick
    ensures r.moveCounter == 0 && s.moveCounter != 0 && d.turnRoll < TURN_CHANCE ==>
              r.current == Perpendicular(s.current, d.turnCoin)
    ensures s.moveCounter < MAX_MOVE_DURATION && d.changeRoll >= CHANGE_CHANCE ==> r == s
    ensures r.moveCounter == s.moveCounter ==> r == s
    ensures r.lastX == s.lastX && r.lastY == s.lastY && r.stuck == s.stuck
    ensures r.consecutiveStuck == s.consecutiveStuck && r.flips == s.flips && r.breakout == s.breakout
  {
    if s.consecutiveStuck == 0 && s.moveCounter >= MIN_MOVE_DURATION
       && (s.moveCounter >= MAX_MOVE_DURATION || d.changeRoll < CHANGE_CHANCE)
    then
      var heading := if d.turnRoll < TURN_CHANCE then Perpendicular(s.current, d.turnCoin) else d.turnPick;
      s.(lastDirection := s.current, current := heading, moveCounter := 0)
    else s
  }

  /**
   * The state a call outside a breakout hands to `Turn`: stuck detection
   * against the previous sample (skipped on the first call), then the new
   * sample and one more call on the current heading.
   */
  function Observe(s: State, x: real, y: real, d: Draws): (r: State)
    ensures r.lastX == x && r.lastY == y
    ensures s.lastX < 0.0 ==> r == s.(lastX := x, lastY := y, moveCounter := s.moveCounter + 1)
    ensures s.lastX >= 0.0 && !Motionless(s.lastX, s.lastY, x, y) ==>
              r == s.(lastX := x, lastY := y, moveCounter := s.moveCounter + 1, stuck := 0, consecutiveStuck := 0)
  {
    var sampled := if s.lastX >= 0.0 then Detect(s, x, y, d) else s;
    sampled.(lastX := x, lastY := y, moveCounter := sampled.moveCounter + 1)
  }

  /** One call of `getNextMove` for the tank whose top-left corner is (x, y). */
  function Next(s: State, x: real, y: real, d: Draws): (r: (State, Direction))
    ensures r.1 == r.0.current
    ensures s.breakout > 0 ==> r.0 == s.(breakout := s.breakout - 1) && r.1 == s.current
    ensures s.breakout == 0 ==> r.0 == Turn(Observe(s, x, y, d), d)
    ensures s.breakout == 0 ==> r.0.lastX == x && r.0.lastY == y
    ensures s.breakout == 0 && s.lastX < 0.0 ==>
              r.0.stuck == s.stuck && r.0.consecutiveStuck == s.consecutiveStuck && r.0.flips == s.flips
    ensures s.breakout == 0 && s.lastX >= 0.0 && !Motionless(s.lastX, s.lastY, x, y) ==>
              r.0.stuck == 0 && r.0.consecutiveStuck == 0
    ensures s.breakout == 0 && s.lastX >= 0.0 && !Motionless(s.lastX, s.lastY, x, y)
            && s.moveCounter + 1 >= MIN_MOVE_DURATION
            && (s.moveCounter + 1 >= MAX_MOVE_DURATION || d.changeRoll < CHANGE_CHANCE) ==>
              && r.0.moveCounter == 0 && r.0.lastDirection == s.current
              && (d.turnRoll < TURN_CHANCE ==> r.0.current == Perpendicular(s.current, d.turnCoin))
              && (d.turnRoll >= TURN_CHANCE ==> r.0.current == d.turnPick)
    ensures s.breakout == 0 && s.lastX >= 0.0 && !Motionless(s.lastX, s.lastY, x, y)
            && (s.moveCounter + 1 < MIN_MOVE_DURATION
                || (s.moveCounter + 1 < MAX_MOVE_DURATION && d.changeRoll >= CHANGE_CHANCE)) ==>
              r.0.current == s.current && r.0.moveCounter == s.moveCounter + 1
  {
    if s.breakout > 0 then
      (s.(breakout := s.breakout - 1), s.current)
    else
      var turned := Turn(Observe(s, x, y, d), d);
      (turned, turned.current)
  }

  /** The first call after construction has no previous sample, so it never counts as stuck. */
  lemma FirstCallSkipsStuckDetection(start: Direction, x: real, y: real, d: Draws)
    ensures var r := Next(Init(start), x, y, d).0;
            && r.stuck == 0 && r.consecutiveStuck == 0
            && r.current == start && r.moveCounter == 1
            && r.lastX == x && r.lastY == y
  {
  }

  /** A call recovers exactly on the third consecutive motionless call; a recovery leaves the dwell counter at 1. */
  lemma RecoveryOnThirdMotionlessCall(s: State, x: real, y: real, d: Draws)
    requires s.breakout == 0 && s.lastX >= 0.0 && Motionless(s.lastX, s.lastY, x, y)
    ensures var r := Next(s, x, y, d).0;
            && (s.consecutiveStuck + 1 >= STUCK_FRAMES ==>
                  r.consecutiveStuck == 0 && r.moveCounter == 1 && r.lastDirection == s.current)
            && (s.consecutiveStuck + 1 < STUCK_FRAMES ==>
                  && r.consecutiveStuck == s.consecutiveStuck + 1 && r.stuck == s.stuck + 1
                  && r.current == s.current && r.moveCounter == s.moveCounter + 1)
  {
  }

  /**
   * The states `Next` can reach from `Init` while the tank stays inside the
   * map: bounded counters, a stuck count in step with the motionless streak,
   * and a heading never held past the maximum dwell without a change.
   */
  predicate Inv(s: State) {
    && s.consecutiveStuck < STUCK_FRAMES
    && s.stuck % STUCK_FRAMES == s.consecutiveStuck
    && s.stuck < LADDER.perpendicularBelow + s.consecutiveStuck
    && s.flips <= 1
    && s.breakout <= BREAKOUT_CALLS
    && s.moveCounter < MAX_MOVE_DURATION + s.consecutiveStuck
    && (s.lastX < 0.0 ==> s.consecutiveStuck == 0)
  }

  lemma InitEstablishesInv(start: Direction)
    ensures Inv(Init(start))
  {
  }

  /**
   * `Next` preserves `Inv` for every sample inside the map. In particular the
   * dwell counter never exceeds `MAX_MOVE_DURATION + 1`: a heading is changed
   * at the maximum dwell, or by a recovery, without fail.
   */
  lemma {:induction false} NextPreservesInv(s: State, x: real, y: real, d: Draws)
    requires Inv(s) && x >= 0.0
    ensures Inv(Next(s, x, y, d).0)
    ensures Next(s, x, y, d).0.moveCounter <= MAX_MOVE_DURATION + 1
  {
    if s.breakout == 0 && s.lastX >= 0.0 && Motionless(s.lastX, s.lastY, x, y)
       && s.consecutiveStuck + 1 >= STUCK_FRAMES {
      var e := Recover(s.current, s.lastDirection, s.flips, s.stuck + 1, LADDER,
                       d.recoverCoin, d.recoverPick, d.breakoutCoin);
      assert e.stuck % STUCK_FRAMES == 0 && e.stuck < LADDER.perpendicularBelow;
    }
  }

  /**
   * Under `Inv`, the recoveries of one motionless streak follow a fixed
   * schedule: the one at stuck count 3 reverses, those at 6 and 9 turn
   * perpendicular, the one at 12 picks at random and restarts the count.
   */
  lemma {:induction false} RecoverySchedule(s: State, x: real, y: real, d: Draws)
    requires Inv(s)
    requires s.breakout == 0 && s.lastX >= 0.0 && Motionless(s.lastX, s.lastY, x, y)
    requires s.consecutiveStuck + 1 >= STUCK_FRAMES
    ensures s.stuck + 1 in {3, 6, 9, 12}
    ensures var rung := Rung(s.current, s.stuck + 1, LADDER, d.recoverCoin, d.recoverPick);
            var r := Next(s, x, y, d).0;
            && (s.stuck + 1 == 3 ==> rung == s.current.Opposite() && r.stuck == 3)
            && (s.stuck + 1 in {6, 9} ==> rung.IsVertical() != s.current.IsVertical() && r.stuck == s.stuck + 1)
            && (s.stuck + 1 == 12 ==> rung == d.recoverPick && r.stuck == 0)
            && (r.breakout == 0 ==> r.current == rung)
  {
    assert s.consecutiveStuck == 2;
    assert s.stuck % 3 == 2 && s.stuck < 12;
    assert s.stuck == 2 || s.stuck == 5 || s.stuck == 8 || s.stuck == 11;
  }

  /** The second flip in a row starts a breakout: a perpendicular heading held for 60 calls. */
  lemma OscillationStartsBreakout(s: State, x: real, y: real, d: Draws)
    requires s.breakout == 0 && s.lastX >= 0.0 && Motionless(s.lastX, s.lastY, x, y)
    requires s.consecutiveStuck + 1 >= STUCK_FRAMES && s.flips >= 1
    requires var rung := Rung(s.current, s.stuck + 1, LADDER, d.recoverCoin, d.recoverPick);
             rung == s.lastDirection && rung == s.current.Opposite()
    ensures var rung := Rung(s.current, s.stuck + 1, LADDER, d.recoverCoin, d.recoverPick);
            var r := Next(s, x, y, d).0;
            && r.breakout == BREAKOUT_CALLS && r.flips == 0
            && r.current.IsVertical() != rung.IsVertical()
  {
  }

  /** One call's inputs: the tank's top-left corner and the random draws. */
  datatype Sample = Sample(x: real, y: real, draws: Draws)

  /** The state after a run of calls. */
  function Run(s: State, samples: seq<Sample>): State
    decreases |samples|
  {
    if samples == [] then s
    else Run(Next(s, samples[0].x, samples[0].y, samples[0].draws).0, samples[1..])
  }

  /**
   * During a breakout window nothing is recalculated: `k` calls, with
   * `k <= breakout`, keep the heading and every other field and only count the
   * window down.
   */
  lemma {:induction false} BreakoutWindowHoldsHeading(s: State, samples: seq<Sample>)
    requires |samples| <= s.breakout
    ensures Run(s, samples) == s.(breakout := s.breakout - |samples|)
    decreases |samples|
  {
    if samples != [] {
      BreakoutWindowHoldsHeading(s.(breakout := s.breakout - 1), samples[1..]);
    }
  }
}
