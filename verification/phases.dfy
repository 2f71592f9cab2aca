/**
 * The phases of `GameEngine.update` before collision handling: the player's
 * keyboard input, the enemies' turns, the missile sweep and the explosion
 * sweep (the med pack pulse is a one-liner in the update itself).
 */
module Phases {
  import opened Geometry
  import opened Wrappers
  import opened Objects
  import opened Seqs
  import opened World
  import Steering
  import Strategies
  import Tanks
  import Missiles
  import MedPacks
  import Explosions
  import Arena
  import Walls

  // ----- handlePlayerInput -----

  /** The movement keys held, by priority: Up/W, then Down/S, then Left/A, then Right/D. */
  function Heading(keys: set<Key>): (h: Option<Direction>)
    ensures h == Some(Up) <==> KeyUp in keys || KeyW in keys
    ensures h == Some(Down) <==> !(KeyUp in keys || KeyW in keys) && (KeyDown in keys || KeyS in keys)
    ensures h == Some(Left) <==>
              !(KeyUp in keys || KeyW in keys || KeyDown in keys || KeyS in keys) && (KeyLeft in keys || KeyA in keys)
    ensures h == Some(Right) <==>
              !(KeyUp in keys || KeyW in keys || KeyDown in keys || KeyS in keys || KeyLeft in keys || KeyA in keys)
              && (KeyRight in keys || KeyD in keys)
  {
    if KeyUp in keys || KeyW in keys then Some(Up)
    else if KeyDown in keys || KeyS in keys then Some(Down)
    else if KeyLeft in keys || KeyA in keys then Some(Left)
    else if KeyRight in keys || KeyD in keys then Some(Right)
    else None
  }

  predicate IsMovementKey(k: Key) {
    k in {KeyUp, KeyW, KeyDown, KeyS, KeyLeft, KeyA, KeyRight, KeyD}
  }

  /** Holding or releasing a key that is not a movement key never changes the heading. */
  lemma HeadingIgnoresOtherKeys(keys: set<Key>, k: Key)
    requires !IsMovementKey(k)
    ensures Heading(keys + {k}) == Heading(keys)
    ensures Heading(keys - {k}) == Heading(keys)
  {
  }

  /** The tank `self` stands for: the player's tank or an enemy's. */
  function TankOf(e: Engine, self: Ref): Tanks.Tank
    requires self.PlayerRef? || (self.EnemyRef? && self.index < |e.enemies|)
  {
    if self.PlayerRef? then e.player else e.enemies[self.index]
  }

  /** Stores `t` as the tank `self` stands for. */
  function WithTank(e: Engine, self: Ref, t: Tanks.Tank): (r: Engine)
    requires self.PlayerRef? || (self.EnemyRef? && self.index < |e.enemies|)
    ensures |r.enemies| == |e.enemies| && TankOf(r, self) == t
  {
    if self.PlayerRef? then e.(player := t) else e.(enemies := e.enemies[self.index := t])
  }

  /**
   * `fire()` by the tank `self` followed, when a missile comes out, by adding
   * it to the missile list and to `allObjects`.
   */
  function Shoot(e: Engine, self: Ref): (r: Engine)
    requires self.PlayerRef? || (self.EnemyRef? && self.index < |e.enemies|)
    ensures |r.enemies| == |e.enemies|
    ensures r == e.(player := r.player, enemies := r.enemies, missiles := r.missiles, all := r.all, nextId := r.nextId)
    ensures self.PlayerRef? ==> r.enemies == e.enemies
    ensures self.EnemyRef? ==>
              r.player == e.player && forall j :: 0 <= j < |e.enemies| && j != self.index ==> r.enemies[j] == e.enemies[j]
    ensures TankOf(e, self).cooldown > 0 ==> r == e
    ensures TankOf(e, self).cooldown == 0 ==>
              var n := |e.missiles|;
              && TankOf(r, self) == TankOf(e, self).(cooldown := Tanks.FIRE_COOLDOWN_TICKS)
              && |r.missiles| == n + 1 && r.missiles[..n] == e.missiles
              && r.missiles[n].active && r.missiles[n].id == e.nextId
              && r.missiles[n].dir == TankOf(e, self).facing
              && r.missiles[n].ownerIsPlayer == TankOf(e, self).isPlayer
              && !Intersects(r.missiles[n].box, TankOf(e, self).box)
              && multiset(r.all) == multiset(e.all) + multiset{MissileRef(e.nextId)}
              && r.nextId == e.nextId + 1
  {
    var (t, m) := Tanks.Fire(TankOf(e, self), e.nextId);
    var e1 := WithTank(e, self, t);
    if m.Some? then AddMissile(e1, m.value) else e1
  }

  /** `move` of the tank `self` against the current `allObjects`. */
  function Drive(e: Engine, self: Ref, heading: Option<Direction>): (r: Engine)
    requires self.PlayerRef? || (self.EnemyRef? && self.index < |e.enemies|)
    ensures |r.enemies| == |e.enemies|
    ensures TankOf(r, self) == Tanks.Move(TankOf(e, self), self, heading, Obstacles(e),
                                          Arena.MAP_WIDTH, Arena.MAP_HEIGHT)
    ensures self.PlayerRef? ==> r == e.(player := r.player)
    ensures self.EnemyRef? ==>
              && r == e.(enemies := r.enemies)
              && forall j :: 0 <= j < |e.enemies| && j != self.index ==> r.enemies[j] == e.enemies[j]
  {
    WithTank(e, self, Tanks.Move(TankOf(e, self), self, heading, Obstacles(e), Arena.MAP_WIDTH, Arena.MAP_HEIGHT))
  }

  /**
   * `handlePlayerInput`: nothing while the player's tank is destroyed;
   * otherwise a step in the heading of the held movement keys, then a shot
   * while Space is held.
   */
  function HandleInput(e: Engine): (r: Engine)
    ensures !e.player.active ==> r == e
    ensures e.player.active && Heading(e.keys).Some? ==> r.player.facing == Heading(e.keys).value
    ensures Heading(e.keys).None? ==> r.player.box == e.player.box
    ensures KeySpace !in e.keys ==> r.missiles == e.missiles && r.all == e.all && r.nextId == e.nextId
    ensures r == e.(player := r.player, missiles := r.missiles, all := r.all, nextId := r.nextId)
    ensures e.player.active && Heading(e.keys).Some? ==>
              r.player.box == Tanks.Move(e.player, PlayerRef, Heading(e.keys), Obstacles(e),
                                         Arena.MAP_WIDTH, Arena.MAP_HEIGHT).box
    ensures e.player.cooldown > 0 ==> r.missiles == e.missiles && r.all == e.all && r.nextId == e.nextId
    ensures e.player.active && KeySpace in e.keys && e.player.cooldown == 0 ==>
              var n := |e.missiles|;
              && |r.missiles| == n + 1 && r.missiles[..n] == e.missiles
              && r.missiles[n].active && r.missiles[n].id == e.nextId
              && r.missiles[n].dir == r.player.facing
              && r.missiles[n].ownerIsPlayer == e.player.isPlayer
              && multiset(r.all) == multiset(e.all) + multiset{MissileRef(e.nextId)}
              && r.player.cooldown == Tanks.FIRE_COOLDOWN_TICKS
  {
    if !e.player.active then e
    else
      var heading := Heading(e.keys);
      var moved := if heading.Some? then Drive(e, PlayerRef, heading) else e;
      if KeySpace in e.keys then Shoot(moved, PlayerRef) else moved
  }

  // ----- updateEnemyTanks -----

  /** What one enemy's turn draws: its strategy's draws and the fire roll. */
  datatype EnemyDraws = EnemyDraws(steer: Strategies.Draws, fireRoll: real)

  /** What the enemy strategies see of the player's tank. */
  function PlayerView(e: Engine): Steering.Opponent {
    Steering.Opponent(e.player.active, e.player.box.CenterX(), e.player.box.CenterY())
  }

  /**
   * The steering half of an active enemy's turn: ask its strategy, keep the
   * strategy's new state, and step in the heading it gives.
   */
  function Steer(e: Engine, i: nat, d: EnemyDraws): (r: Engine)
    requires i < |e.enemies|
    ensures |r.enemies| == |e.enemies|
    ensures r == e.(enemies := r.enemies)
    ensures forall j :: 0 <= j < |e.enemies| && j != i ==> r.enemies[j] == e.enemies[j]
    ensures var t := e.enemies[i];
            var (st, heading) := Strategies.NextMove(t.strategy, t.box, Some(PlayerView(e)), d.steer);
            && r.enemies[i].strategy == st
            && (heading.None? ==> r.enemies[i] == t.(strategy := st))
            && (heading.Some? ==>
                  r.enemies[i] == Tanks.Move(t.(strategy := st), EnemyRef(i), heading, Obstacles(e),
                                             Arena.MAP_WIDTH, Arena.MAP_HEIGHT))
  {
    var t := e.enemies[i];
    ObstaclesIgnoreStrategy(e, i, Strategies.NextMove(t.strategy, t.box, Some(PlayerView(e)), d.steer).0);
    var (st, heading) := Strategies.NextMove(t.strategy, t.box, Some(PlayerView(e)), d.steer);
    var e1 := WithTank(e, EnemyRef(i), t.(strategy := st));
    if heading.Some? then Drive(e1, EnemyRef(i), heading) else e1
  }

  /**
   * One active enemy's turn: steer, fire when the roll is below 1%, then
   * update the cooldown. An inactive enemy is skipped.
   */
  function EnemyTurn(e: Engine, i: nat, d: EnemyDraws): (r: Engine)
    requires i < |e.enemies|
    ensures !e.enemies[i].active ==> r == e
    ensures |r.enemies| == |e.enemies|
    ensures d.fireRoll >= Arena.ENEMY_FIRE_RATE ==> r.missiles == e.missiles && r.all == e.all
    ensures e.enemies[i].cooldown > 0 ==> r.missiles == e.missiles && r.all == e.all
    ensures r == e.(enemies := r.enemies, missiles := r.missiles, all := r.all, nextId := r.nextId)
    ensures forall j :: 0 <= j < |e.enemies| && j != i ==> r.enemies[j] == e.enemies[j]
    ensures e.enemies[i].active ==>
              r.enemies[i].strategy
                == Strategies.NextMove(e.enemies[i].strategy, e.enemies[i].box, Some(PlayerView(e)), d.steer).0
    ensures e.enemies[i].active && d.fireRoll < Arena.ENEMY_FIRE_RATE && e.enemies[i].cooldown == 0 ==>
              var n := |e.missiles|;
              && |r.missiles| == n + 1 && r.missiles[..n] == e.missiles
              && r.missiles[n].active && r.missiles[n].id == e.nextId
              && r.missiles[n].dir == r.enemies[i].facing
              && r.missiles[n].ownerIsPlayer == e.enemies[i].isPlayer
              && multiset(r.all) == multiset(e.all) + multiset{MissileRef(e.nextId)}
              && r.enemies[i].cooldown == Tanks.FIRE_COOLDOWN_TICKS - 1
  {
    if !e.enemies[i].active then e
    else
      var e2 := Steer(e, i, d);
      var e3 := if d.fireRoll < Arena.ENEMY_FIRE_RATE then Shoot(e2, EnemyRef(i)) else e2;
      CoolDown(e3, i)
  }

  /** `update()` of enemy `i`: its fire cooldown counts down by one. */
  function CoolDown(e: Engine, i: nat): (r: Engine)
    requires i < |e.enemies|
    ensures r == e.(enemies := r.enemies) && |r.enemies| == |e.enemies|
    ensures forall j :: 0 <= j < |e.enemies| && j != i ==> r.enemies[j] == e.enemies[j]
    ensures r.enemies[i] == e.enemies[i].(cooldown := if e.enemies[i].cooldown > 0 then e.enemies[i].cooldown - 1 else 0)
  {
    WithTank(e, EnemyRef(i), Tanks.Update(TankOf(e, EnemyRef(i))))
  }

  /** The enemies' turns from enemy `i` on, in list order; enemy `k` draws `d(k)`. */
  function EnemiesFrom(e: Engine, d: nat -> EnemyDraws, i: nat): (r: Engine)
    ensures |r.enemies| == |e.enemies|
    ensures r == e.(enemies := r.enemies, missiles := r.missiles, all := r.all, nextId := r.nextId)
    decreases |e.enemies| - i
  {
    if i >= |e.enemies| then e
    else EnemiesFrom(EnemyTurn(e, i, d(i)), d, i + 1)
  }

  /** A tank's strategy is invisible to the other tanks: changing it leaves the obstacles alone. */
  lemma ObstaclesIgnoreStrategy(e: Engine, i: nat, st: Strategies.Strategy)
    requires i < |e.enemies|
    ensures Obstacles(e.(enemies := e.enemies[i := e.enemies[i].(strategy := st)])) == Obstacles(e)
  {
    var e' := e.(enemies := e.enemies[i := e.enemies[i].(strategy := st)]);
    forall r | r in e.all ensures BodyOf(e', r) == BodyOf(e, r) {
    }
    BodiesAgree(e', e, e.all);
  }

  // ----- updateMissiles -----

  /** A missile that survives the sweep: active and not out of bounds. */
  predicate Live(m: Missiles.Missile) {
    m.active && !Missiles.OutOfBounds(m, Arena.MAP_WIDTH, Arena.MAP_HEIGHT)
  }

  /**
   * The `removeIf` over the missiles: a missile that is inactive or out of
   * bounds is dropped (its reference collected for removal from
   * `allObjects`); every other one flies one step and stays, in order.
   */
  function Sweep(ms: seq<Missiles.Missile>): (res: (seq<Missiles.Missile>, seq<Ref>))
    decreases |ms|
  {
    if ms == [] then ([], [])
    else
      var (kept, gone) := Sweep(ms[1..]);
      if !Live(ms[0]) then (kept, [MissileRef(ms[0].id)] + gone)
      else ([Missiles.Advance(ms[0])] + kept, gone)
  }

  /** The sweep keeps exactly the live missiles, each one step further on. */
  lemma {:induction false} SweepKeepsLive(ms: seq<Missiles.Missile>)
    ensures forall m :: m in ms && Live(m) ==> Missiles.Advance(m) in Sweep(ms).0
    ensures forall m' :: m' in Sweep(ms).0 ==> exists m :: m in ms && Live(m) && m' == Missiles.Advance(m)
    decreases |ms|
  {
    if ms != [] {
      SweepKeepsLive(ms[1..]);
      assert forall m :: m in ms ==> m == ms[0] || m in ms[1..];
    }
  }

  /** Each dropped missile hands over its reference: kept and dropped references together are the old ones. */
  lemma {:induction false} SweepAccountsForRefs(ms: seq<Missiles.Missile>)
    ensures multiset(MissileRefs(ms)) == multiset(MissileRefs(Sweep(ms).0)) + multiset(Sweep(ms).1)
    decreases |ms|
  {
    if ms != [] {
      var rest := ms[1..];
      var kept := Sweep(rest).0;
      var gone := Sweep(rest).1;
      SweepAccountsForRefs(rest);
      assert ms == [ms[0]] + rest;
      MissileRefsCons(ms[0], rest);
      if Live(ms[0]) {
        MissileRefsCons(Missiles.Advance(ms[0]), kept);
        ConsSplits(MissileRef(ms[0].id), multiset(MissileRefs(rest)), multiset(MissileRefs(kept)), multiset(gone));
      } else {
        ConsSplits(MissileRef(ms[0].id), multiset(MissileRefs(rest)), multiset(gone), multiset(MissileRefs(kept)));
      }
    }
  }

  lemma MissileRefsCons(m: Missiles.Missile, ms: seq<Missiles.Missile>)
    ensures MissileRefs([m] + ms) == [MissileRef(m.id)] + MissileRefs(ms)
  {
  }

  /** Putting `x` in front of a list split in two parts puts it in front of one of the parts. */
  lemma ConsSplits<T>(x: T, whole: multiset<T>, a: multiset<T>, b: multiset<T>)
    requires whole == a + b
    ensures multiset{x} + whole == (multiset{x} + a) + b
    ensures multiset{x} + whole == a + (multiset{x} + b)
  {
  }

  /** The kept missiles' identities stay within any bounds the old ones kept to. */
  lemma {:induction false} SweepWithin(ms: seq<Missiles.Missile>, lo: int, hi: int)
    requires forall j :: 0 <= j < |ms| ==> lo < ms[j].id < hi
    ensures forall k :: 0 <= k < |Sweep(ms).0| ==> lo < Sweep(ms).0[k].id < hi
    decreases |ms|
  {
    if ms != [] {
      SweepWithin(ms[1..], lo, hi);
    }
  }

  /** The kept missiles keep their identities in increasing order, below the next identity. */
  lemma {:induction false} SweepKeepsIds(ms: seq<Missiles.Missile>, next: nat)
    requires FreshIds(MissileIds(ms), next)
    ensures FreshIds(MissileIds(Sweep(ms).0), next)
    decreases |ms|
  {
    if ms != [] {
      var rest := ms[1..];
      assert MissileIds(rest) == MissileIds(ms)[1..];
      SweepKeepsIds(rest, next);
      SweepWithin(rest, ms[0].id, next);
    }
  }

  /** `updateMissiles`. */
  function SweepMissiles(e: Engine): (r: Engine)
    ensures r == e.(missiles := r.missiles, all := r.all)
    ensures forall m :: m in e.missiles && Live(m) ==> Missiles.Advance(m) in r.missiles
    ensures forall m' :: m' in r.missiles ==> exists m :: m in e.missiles && Live(m) && m' == Missiles.Advance(m)
    ensures Synced(e) ==> Synced(r)
    ensures Fresh(e) ==> Fresh(r)
  {
    SweepMissilesKeepsInvariant(e);
    SweepKeepsLive(e.missiles);
    e.(missiles := Sweep(e.missiles).0, all := RemoveEach(e.all, Sweep(e.missiles).1))
  }

  lemma SweepMissilesKeepsInvariant(e: Engine)
    ensures var r := e.(missiles := Sweep(e.missiles).0, all := RemoveEach(e.all, Sweep(e.missiles).1));
            (Synced(e) ==> Synced(r)) && (Fresh(e) ==> Fresh(r))
  {
    if Synced(e) {
      SweepMissilesKeepsSync(e);
    }
    if Fresh(e) {
      SweepKeepsIds(e.missiles, e.nextId);
    }
  }

  lemma SweepMissilesKeepsSync(e: Engine)
    requires Synced(e)
    ensures Synced(e.(missiles := Sweep(e.missiles).0, all := RemoveEach(e.all, Sweep(e.missiles).1)))
  {
    var (kept, gone) := Sweep(e.missiles);
    SweepAccountsForRefs(e.missiles);
    assert multiset(gone) <= multiset(e.all);
    var r := e.(missiles := kept, all := RemoveEach(e.all, gone));
    assert multiset(r.all) == multiset(e.all) - multiset(gone);
    assert Population(r) == Population(e) - multiset(gone);
  }

  // ----- updateExplosions -----

  /**
   * `forEach(update)` followed by `removeIf(!active)` over the explosions:
   * every explosion advances its animation, and the ones that finish are
   * dropped (their references collected for removal from `allObjects`).
   */
  function Fade(xs: seq<Explosions.Explosion>): (res: (seq<Explosions.Explosion>, seq<Ref>))
    decreases |xs|
  {
    if xs == [] then ([], [])
    else
      var (kept, gone) := Fade(xs[1..]);
      var x := Explosions.Update(xs[0]);
      if !x.active then (kept, [ExplosionRef(x.id)] + gone)
      else ([x] + kept, gone)
  }

  /** The sweep keeps exactly the explosions still active after their update, each updated once. */
  lemma {:induction false} FadeKeepsRunning(xs: seq<Explosions.Explosion>)
    ensures forall x :: x in Fade(xs).0 ==> x.active
    ensures forall x :: x in xs && Explosions.Update(x).active ==> Explosions.Update(x) in Fade(xs).0
    ensures forall x' :: x' in Fade(xs).0 ==> exists x :: x in xs && x' == Explosions.Update(x)
    decreases |xs|
  {
    if xs != [] {
      FadeKeepsRunning(xs[1..]);
      assert forall x :: x in xs ==> x == xs[0] || x in xs[1..];
    }
  }

  /** Kept and dropped explosion references together are the old ones. */
  lemma {:induction false} FadeAccountsForRefs(xs: seq<Explosions.Explosion>)
    ensures multiset(ExplosionRefs(xs)) == multiset(ExplosionRefs(Fade(xs).0)) + multiset(Fade(xs).1)
    decreases |xs|
  {
    if xs != [] {
      var rest := xs[1..];
      var kept := Fade(rest).0;
      var gone := Fade(rest).1;
      var x := Explosions.Update(xs[0]);
      FadeAccountsForRefs(rest);
      assert xs == [xs[0]] + rest;
      ExplosionRefsCons(xs[0], rest);
      if x.active {
        ExplosionRefsCons(x, kept);
        ConsSplits(ExplosionRef(x.id), multiset(ExplosionRefs(rest)), multiset(ExplosionRefs(kept)), multiset(gone));
      } else {
        ConsSplits(ExplosionRef(x.id), multiset(ExplosionRefs(rest)), multiset(gone), multiset(ExplosionRefs(kept)));
      }
    }
  }

  lemma ExplosionRefsCons(x: Explosions.Explosion, xs: seq<Explosions.Explosion>)
    ensures ExplosionRefs([x] + xs) == [ExplosionRef(x.id)] + ExplosionRefs(xs)
  {
  }

  /** The kept explosions' identities stay within any bounds the old ones kept to. */
  lemma {:induction false} FadeWithin(xs: seq<Explosions.Explosion>, lo: int, hi: int)
    requires forall j :: 0 <= j < |xs| ==> lo < xs[j].id < hi
    ensures forall k :: 0 <= k < |Fade(xs).0| ==> lo < Fade(xs).0[k].id < hi
    decreases |xs|
  {
    if xs != [] {
      FadeWithin(xs[1..], lo, hi);
    }
  }

  /** The kept explosions keep their identities in increasing order, below the next identity. */
  lemma {:induction false} FadeKeepsIds(xs: seq<Explosions.Explosion>, next: nat)
    requires FreshIds(ExplosionIds(xs), next)
    ensures FreshIds(ExplosionIds(Fade(xs).0), next)
    decreases |xs|
  {
    if xs != [] {
      var rest := xs[1..];
      assert ExplosionIds(rest) == ExplosionIds(xs)[1..];
      FadeKeepsIds(rest, next);
      FadeWithin(rest, xs[0].id, next);
    }
  }

  /** `updateExplosions`. */
  function UpdateExplosions(e: Engine): (r: Engine)
    ensures r == e.(explosions := r.explosions, all := r.all)
    ensures forall x :: x in r.explosions ==> x.active
    ensures forall x :: x in e.explosions && Explosions.Update(x).active ==> Explosions.Update(x) in r.explosions
    ensures forall x' :: x' in r.explosions ==> exists x :: x in e.explosions && x' == Explosions.Update(x)
    ensures Synced(e) ==> Synced(r)
    ensures Fresh(e) ==> Fresh(r)
  {
    UpdateExplosionsKeepsInvariant(e);
    FadeKeepsRunning(e.explosions);
    e.(explosions := Fade(e.explosions).0, all := RemoveEach(e.all, Fade(e.explosions).1))
  }

  lemma UpdateExplosionsKeepsInvariant(e: Engine)
    ensures var r := e.(explosions := Fade(e.explosions).0, all := RemoveEach(e.all, Fade(e.explosions).1));
            (Synced(e) ==> Synced(r)) && (Fresh(e) ==> Fresh(r))
  {
    if Synced(e) {
      UpdateExplosionsKeepsSync(e);
    }
    if Fresh(e) {
      FadeKeepsIds(e.explosions, e.nextId);
    }
  }

  lemma UpdateExplosionsKeepsSync(e: Engine)
    requires Synced(e)
    ensures Synced(e.(explosions := Fade(e.explosions).0, all := RemoveEach(e.all, Fade(e.explosions).1)))
  {
    var (kept, gone) := Fade(e.explosions);
    FadeAccountsForRefs(e.explosions);
    assert multiset(gone) <= multiset(e.all);
    var r := e.(explosions := kept, all := RemoveEach(e.all, gone));
    assert multiset(r.all) == multiset(e.all) - multiset(gone);
    assert Population(r) == Population(e) - multiset(gone);
  }

  // ----- medPacks.forEach(MedPack::update) -----

  function PulseAll(ps: seq<MedPacks.MedPack>): (r: seq<MedPacks.MedPack>)
    ensures |r| == |ps| && forall i :: 0 <= i < |ps| ==> r[i] == MedPacks.Update(ps[i])
    ensures PackIds(r) == PackIds(ps) && PackRefs(r) == PackRefs(ps)
  {
    seq(|ps|, i requires 0 <= i < |ps| => MedPacks.Update(ps[i]))
  }

  // ----- the phases keep the invariant -----

  /**
   * A move keeps a placed tank placed, when every active wall is among the
   * obstacles it is checked against.
   */
  lemma MoveAmongWallsKeepsPlaced(t: Tanks.Tank, self: Ref, heading: Option<Direction>, obstacles: seq<Body>,
                                  walls: seq<Walls.Wall>)
    requires !self.WallRef? && Placed(t, walls)
    requires forall i :: 0 <= i < |walls| ==> walls[i].active && Walls.AsBody(walls[i], i) in obstacles
    ensures Placed(Tanks.Move(t, self, heading, obstacles, Arena.MAP_WIDTH, Arena.MAP_HEIGHT), walls)
  {
    var r := Tanks.Move(t, self, heading, obstacles, Arena.MAP_WIDTH, Arena.MAP_HEIGHT);
    Tanks.MoveKeepsPlacement(t, self, heading, obstacles, Arena.MAP_WIDTH, Arena.MAP_HEIGHT);
    forall w | w in walls ensures !Intersects(r.box, w.box) {
      var i :| 0 <= i < |walls| && walls[i] == w;
      if r.box != t.box {
        assert !Obstructs(Walls.AsBody(w, i), self, r.box);
      }
    }
  }

  /** A tank's move keeps it placed: the map bounds hold, and every wall is among the obstacles. */
  lemma {:induction false} MoveKeepsPlaced(e: Engine, self: Ref, heading: Option<Direction>)
    requires self.PlayerRef? || (self.EnemyRef? && self.index < |e.enemies|)
    requires Synced(e) && Shaped(e) && Placed(TankOf(e, self), e.walls)
    ensures Placed(Tanks.Move(TankOf(e, self), self, heading, Obstacles(e), Arena.MAP_WIDTH, Arena.MAP_HEIGHT), e.walls)
  {
    forall i | 0 <= i < |e.walls| ensures e.walls[i].active && Walls.AsBody(e.walls[i], i) in Obstacles(e) {
      WallsObstruct(e, i);
    }
    MoveAmongWallsKeepsPlaced(TankOf(e, self), self, heading, Obstacles(e), e.walls);
  }

  /**
   * Replacing the tank `self` by one that is placed and has the same health
   * and active flag keeps the engine valid.
   */
  lemma ReplaceTankKeepsValid(e: Engine, self: Ref, t: Tanks.Tank)
    requires self.PlayerRef? || (self.EnemyRef? && self.index < |e.enemies|)
    requires Valid(e) && Placed(t, e.walls)
    requires t.active == TankOf(e, self).active && t.health == TankOf(e, self).health
    ensures Valid(WithTank(e, self, t))
  {
    var r := WithTank(e, self, t);
    SameRosterSynced(e, r);
    SameIdsFresh(e, r);
    if self.EnemyRef? {
      ReplaceEnemyKeepsTanks(e, self.index, t);
    }
  }

  /** Replacing enemy `j` by a placed tank of the same health and state keeps the tank parts valid. */
  lemma ReplaceEnemyKeepsTanks(e: Engine, j: nat, t: Tanks.Tank)
    requires j < |e.enemies| && TanksPlaced(e) && TanksVital(e) && Ledger(e) && Placed(t, e.walls)
    requires t.active == e.enemies[j].active && t.health == e.enemies[j].health
    ensures var r := e.(enemies := e.enemies[j := t]); TanksPlaced(r) && TanksVital(r) && Ledger(r)
  {
    var r := e.(enemies := e.enemies[j := t]);
    DestroyedAfterUpdate(e.enemies, j, t);
    assert forall k :: 0 <= k < |r.enemies| ==> r.enemies[k] == t || r.enemies[k] == e.enemies[k];
  }

  /** Adding a missile keeps the engine valid. */
  lemma AddMissileKeepsValid(e: Engine, m: Missiles.Missile)
    requires Valid(e)
    ensures Valid(AddMissile(e, m))
  {
    AddMissileKeeps(e, m);
  }

  lemma {:induction false} DriveKeepsValid(e: Engine, self: Ref, heading: Option<Direction>)
    requires self.PlayerRef? || (self.EnemyRef? && self.index < |e.enemies|)
    requires Valid(e)
    ensures Valid(Drive(e, self, heading))
  {
    MoveKeepsPlaced(e, self, heading);
    ReplaceTankKeepsValid(e, self, Tanks.Move(TankOf(e, self), self, heading, Obstacles(e),
                                              Arena.MAP_WIDTH, Arena.MAP_HEIGHT));
  }

  lemma {:induction false} ShootKeepsValid(e: Engine, self: Ref)
    requires self.PlayerRef? || (self.EnemyRef? && self.index < |e.enemies|)
    requires Valid(e)
    ensures Valid(Shoot(e, self))
  {
    var (t, m) := Tanks.Fire(TankOf(e, self), e.nextId);
    ReplaceTankKeepsValid(e, self, t);
    if m.Some? {
      AddMissileKeepsValid(WithTank(e, self, t), m.value);
    }
  }

  /** `handlePlayerInput` keeps the engine valid. */
  lemma {:induction false} HandleInputKeepsValid(e: Engine)
    requires Valid(e)
    ensures Valid(HandleInput(e))
  {
    if e.player.active {
      var heading := Heading(e.keys);
      var moved := if heading.Some? then Drive(e, PlayerRef, heading) else e;
      if heading.Some? {
        DriveKeepsValid(e, PlayerRef, heading);
      }
      if KeySpace in e.keys {
        ShootKeepsValid(moved, PlayerRef);
      }
    }
  }

  /** Steering an enemy keeps the engine valid. */
  lemma {:induction false} SteerKeepsValid(e: Engine, i: nat, d: EnemyDraws)
    requires i < |e.enemies| && Valid(e)
    ensures Valid(Steer(e, i, d))
  {
    var t := e.enemies[i];
    var self := EnemyRef(i);
    var (st, heading) := Strategies.NextMove(t.strategy, t.box, Some(PlayerView(e)), d.steer);
    var e1 := WithTank(e, self, t.(strategy := st));
    ReplaceTankKeepsValid(e, self, t.(strategy := st));
    if heading.Some? {
      DriveKeepsValid(e1, self, heading);
    }
  }

  /** Counting an enemy's cooldown down keeps the engine valid. */
  lemma CoolDownKeepsValid(e: Engine, i: nat)
    requires i < |e.enemies| && Valid(e)
    ensures Valid(CoolDown(e, i))
  {
    ReplaceTankKeepsValid(e, EnemyRef(i), Tanks.Update(e.enemies[i]));
  }

  /** One enemy's turn keeps the engine valid. */
  lemma {:induction false} EnemyTurnKeepsValid(e: Engine, i: nat, d: EnemyDraws)
    requires i < |e.enemies| && Valid(e)
    ensures Valid(EnemyTurn(e, i, d))
  {
    if e.enemies[i].active {
      var self := EnemyRef(i);
      SteerKeepsValid(e, i, d);
      var e2 := Steer(e, i, d);
      if d.fireRoll < Arena.ENEMY_FIRE_RATE {
        ShootKeepsValid(e2, self);
        CoolDownKeepsValid(Shoot(e2, self), i);
      } else {
        CoolDownKeepsValid(e2, i);
      }
    }
  }

  /** All the enemies' turns keep the engine valid. */
  lemma {:induction false} EnemiesFromKeepsValid(e: Engine, d: nat -> EnemyDraws, i: nat)
    requires Valid(e)
    ensures Valid(EnemiesFrom(e, d, i))
    decreases |e.enemies| - i
  {
    if i < |e.enemies| {
      EnemyTurnKeepsValid(e, i, d(i));
      EnemiesFromKeepsValid(EnemyTurn(e, i, d(i)), d, i + 1);
    }
  }

  /** `updateMissiles` keeps the engine valid. */
  lemma SweepMissilesKeepsValid(e: Engine)
    requires Valid(e)
    ensures Valid(SweepMissiles(e))
  {
    var r := SweepMissiles(e);
    assert r.enemies == e.enemies && r.player == e.player && r.walls == e.walls && r.medPacks == e.medPacks;
    assert Synced(r) && Fresh(r);
  }

  /** `updateExplosions` keeps the engine valid. */
  lemma UpdateExplosionsKeepsValid(e: Engine)
    requires Valid(e)
    ensures Valid(UpdateExplosions(e))
  {
    var r := UpdateExplosions(e);
    assert r.enemies == e.enemies && r.player == e.player && r.walls == e.walls && r.medPacks == e.medPacks;
    assert Synced(r) && Fresh(r);
  }

  /** The med pack pulse keeps the engine valid. */
  lemma PulseKeepsValid(e: Engine)
    requires Valid(e)
    ensures Valid(e.(medPacks := PulseAll(e.medPacks)))
  {
    var r := e.(medPacks := PulseAll(e.medPacks));
    SameRosterSynced(e, r);
    SameIdsFresh(e, r);
    PulseKeepsPlaced(e.medPacks, e.walls);
  }

  /** The pulse moves no pack, so the packs stay well placed. */
  lemma PulseKeepsPlaced(ps: seq<MedPacks.MedPack>, walls: seq<Walls.Wall>)
    requires PacksPlaced(ps, walls)
    ensures PacksPlaced(PulseAll(ps), walls)
  {
    assert forall k :: 0 <= k < |ps| ==> PulseAll(ps)[k].box == ps[k].box;
  }
}
