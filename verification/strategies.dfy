/**
 * The `MovementStrategy` interface as a closed set of variants: the player's
 * strategy (no automatic movement, no state), the wandering one and the
 * chasing one, each carrying its own private state.
 */
module Strategies {
  import opened Geometry
  import opened Wrappers
  import opened Steering
  import Wander
  import Chase

  datatype Strategy =
    | PlayerControl
    | Random(wander: Wander.State)
    | Aggressive(chase: Chase.State)

  /** The draws one `getNextMove` call may consume, for whichever variant is asked. */
  datatype Draws = Draws(wander: Wander.Draws, chase: Chase.Draws)

  /**
   * `getNextMove(tank, obstacles, opponent)` for the tank with box `me`. No
   * variant reads the obstacle list, so it is not an argument. The player's
   * strategy returns no heading and keeps no state; the two computer
   * strategies always return a heading and keep their own kind of state.
   */
  function NextMove(st: Strategy, me: Box, opponent: Option<Opponent>, d: Draws): (r: (Strategy, Option<Direction>))
    ensures st.PlayerControl? <==> r.1.None?
    ensures st.PlayerControl? ==> r.0 == st
    ensures st.Random? ==> r.0.Random? && r.1 == Some(r.0.wander.current)
    ensures st.Aggressive? ==> r.0.Aggressive? && r.1 == Some(r.0.chase.current)
  {
    match st
    case PlayerControl => (st, None)
    case Random(w) =>
      var (w', heading) := Wander.Next(w, me.x, me.y, d.wander);
      (Random(w'), Some(heading))
    case Aggressive(c) =>
      var (c', heading) := Chase.Next(c, me, opponent, d.chase);
      (Aggressive(c'), Some(heading))
  }

  /**
   * The player's strategy ignores its arguments entirely: any two calls, with
   * any tanks, opponents and draws, give the same (empty) answer and state.
   */
  lemma PlayerControlIgnoresArguments(me1: Box, opp1: Option<Opponent>, d1: Draws,
                                      me2: Box, opp2: Option<Opponent>, d2: Draws)
    ensures NextMove(PlayerControl, me1, opp1, d1) == NextMove(PlayerControl, me2, opp2, d2)
  {
  }
}
