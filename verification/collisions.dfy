/**
 * `checkCollisions` and `checkGameConditions` of `GameEngine`: every active
 * missile is stopped by the walls and hits the first tank of the other side
 * it overlaps; every active med pack is picked up by the player's tank or,
 * failing that, by the first enemy that overlaps it; and the game is won
 * when no enemy is left and lost when no life is left.
 */
module Collisions {
  import opened Geometry
  import opened Objects
  import opened Seqs
  import opened World
  import Tanks
  import Missiles
  import MedPacks
  import Explosions
  import Walls
  import Events
  import Arena
  import Factory
  import Loops

  // ----- missiles -----

  /** The missile box `b` overlaps some wall of the course. */
  predicate HitsWall(b: Box, walls: seq<Walls.Wall>) {
    exists w :: w in walls && Intersects(b, w.box)
  }

  /** `t.isActive() && missile.intersects(t)` for a missile with box `b`. */
  predicate Struck(t: Tanks.Tank, b: Box) {
    t.active && Intersects(b, t.box)
  }

  /** No tank of the list is struck by a missile with box `b`. */
  predicate Unstruck(ts: seq<Tanks.Tank>, b: Box) {
    forall j :: 0 <= j < |ts| ==> !Struck(ts[j], b)
  }

  /** The first enemy of the list that a missile with box `b` strikes, or `|ts|` when it strikes none. */
  function FirstStruck(ts: seq<Tanks.Tank>, b: Box): (j: nat)
    ensures j <= |ts|
    ensures j < |ts| ==> Struck(ts[j], b)
    ensures forall l :: 0 <= l < j ==> !Struck(ts[l], b)
    decreases |ts|
  {
    if ts == [] then 0
    else if Struck(ts[0], b) then 0
    else 1 + FirstStruck(ts[1..], b)
  }

  /** `ts'` is `ts` after some tanks took damage: same boxes, and no tank came back to life. */
  predicate NoneRevived(ts: seq<Tanks.Tank>, ts': seq<Tanks.Tank>) {
    |ts'| == |ts| && forall j :: 0 <= j < |ts| ==> ts'[j].box == ts[j].box && (ts'[j].active ==> ts[j].active)
  }

  /** `missile.setActive(false)` for missile `k`. */
  function Spend(e: Engine, k: nat): (r: Engine)
    requires k < |e.missiles|
    ensures |r.missiles| == |e.missiles| && !r.missiles[k].active
    ensures r.missiles[k] == e.missiles[k].(active := false)
    ensures forall l :: 0 <= l < |e.missiles| && l != k ==> r.missiles[l] == e.missiles[l]
    ensures r == e.(missiles := r.missiles)
    ensures MissileRefs(r.missiles) == MissileRefs(e.missiles) && MissileIds(r.missiles) == MissileIds(e.missiles)
  {
    e.(missiles := e.missiles[k := e.missiles[k].(active := false)])
  }

  /**
   * A player's missile `k` against the enemies: the first active enemy it
   * overlaps takes 25 damage and stops the missile; an enemy destroyed that
   * way explodes where it stood, is worth 10 points and is announced.
   */
  function PlayerShot(e: Engine, k: nat): (r: Engine)
    requires k < |e.missiles|
    ensures r == e.(enemies := r.enemies, missiles := r.missiles, explosions := r.explosions, all := r.all,
                    nextId := r.nextId, score := r.score, events := r.events)
    ensures NoneRevived(e.enemies, r.enemies)
    ensures |r.missiles| == |e.missiles| && r.missiles[k].box == e.missiles[k].box
    ensures forall l :: 0 <= l < |e.missiles| && l != k ==> r.missiles[l] == e.missiles[l]
    ensures r.missiles[k].active ==> r.missiles[k] == e.missiles[k] && Unstruck(r.enemies, r.missiles[k].box)
    ensures Destroyed(r.enemies) - Destroyed(e.enemies) in {0, 1}
    ensures r.score == e.score + 10 * (Destroyed(r.enemies) - Destroyed(e.enemies))
    ensures Destroyed(r.enemies) == Destroyed(e.enemies) ==> r.events == e.events
    ensures Destroyed(r.enemies) > Destroyed(e.enemies) ==>
              exists j :: 0 <= j < |e.enemies| && e.enemies[j].active && !r.enemies[j].active
                          && r.events == e.events + [Events.Notice(Events.EnemyDestroyed, Events.TankData(EnemyRef(j)))]
                          && r.explosions == e.explosions + [Explosions.New(e.nextId, e.enemies[j].box.CenterX(), e.enemies[j].box.CenterY())]
    ensures Destroyed(r.enemies) == Destroyed(e.enemies) ==> r.explosions == e.explosions
    ensures Unstruck(e.enemies, e.missiles[k].box) ==> r == e
    ensures !Unstruck(e.enemies, e.missiles[k].box) ==>
              var j := FirstStruck(e.enemies, e.missiles[k].box);
              && j < |e.enemies| && !r.missiles[k].active
              && r.enemies == e.enemies[j := Tanks.TakeDamage(e.enemies[j], Missiles.DAMAGE)]
  {
    var b := e.missiles[k].box;
    var j := FirstStruck(e.enemies, b);
    if j == |e.enemies| then e
    else
      var hit := Tanks.TakeDamage(e.enemies[j], Missiles.DAMAGE);
      DestroyedAfterUpdate(e.enemies, j, hit);
      var e1 := Spend(e, k).(enemies := e.enemies[j := hit]);
      if hit.active then e1
      else
        var e2 := AddExplosion(e1, hit.box.CenterX(), hit.box.CenterY());
        e2.(score := e2.score + 10,
            events := e2.events + [Events.Notice(Events.EnemyDestroyed, Events.TankData(EnemyRef(j)))])
  }

  /** A player's shot keeps `allObjects` in step. */
  lemma PlayerShotKeepsSync(e: Engine, k: nat)
    requires k < |e.missiles| && Synced(e)
    ensures Synced(PlayerShot(e, k))
  {
    var j := FirstStruck(e.enemies, e.missiles[k].box);
    if j < |e.enemies| {
      var hit := Tanks.TakeDamage(e.enemies[j], Missiles.DAMAGE);
      var e1 := Spend(e, k).(enemies := e.enemies[j := hit]);
      SameRosterSynced(e, e1);
      if !hit.active {
        AddExplosionKeepsSync(e1, hit.box.CenterX(), hit.box.CenterY());
        SameRosterSynced(AddExplosion(e1, hit.box.CenterX(), hit.box.CenterY()), PlayerShot(e, k));
      }
    }
  }


  /** A player's shot keeps the identities fresh. */
  lemma PlayerShotKeepsFresh(e: Engine, k: nat)
    requires k < |e.missiles| && Fresh(e)
    ensures Fresh(PlayerShot(e, k))
  {
    var j := FirstStruck(e.enemies, e.missiles[k].box);
    if j < |e.enemies| {
      var hit := Tanks.TakeDamage(e.enemies[j], Missiles.DAMAGE);
      var e1 := Spend(e, k).(enemies := e.enemies[j := hit]);
      SameIdsFresh(e, e1);
      if !hit.active {
        AddExplosionKeepsFresh(e1, hit.box.CenterX(), hit.box.CenterY());
        SameIdsFresh(AddExplosion(e1, hit.box.CenterX(), hit.box.CenterY()), PlayerShot(e, k));
      }
    }
  }


  /** `respawnPlayer`: a fresh player's tank at the spawn point replaces the old one in `allObjects`. */
  function RespawnPlayer(e: Engine): (r: Engine)
    ensures r == e.(player := Factory.CreatePlayerTank(Arena.PLAYER_SPAWN_X, Arena.PLAYER_SPAWN_Y),
                    all := RemoveAll(e.all, PlayerRef) + [PlayerRef])
    ensures Synced(e) ==> Synced(r)
  {
    if Synced(e) then PlayerReferencedOnce(e); RespawnPlayerRaw(e)
    else RespawnPlayerRaw(e)
  }

  function RespawnPlayerRaw(e: Engine): Engine {
    e.(player := Factory.CreatePlayerTank(Arena.PLAYER_SPAWN_X, Arena.PLAYER_SPAWN_Y),
       all := RemoveAll(e.all, PlayerRef) + [PlayerRef])
  }

  /**
   * An enemy's missile `k` against the player's tank: when the active tank
   * overlaps it, the tank takes 25 damage and stops the missile; a tank
   * destroyed that way explodes, costs a life and is announced, and a new
   * tank is spawned while lives remain.
   */
  function EnemyShot(e: Engine, k: nat): (r: Engine)
    requires k < |e.missiles|
    ensures r == e.(player := r.player, missiles := r.missiles, explosions := r.explosions, all := r.all,
                    nextId := r.nextId, lives := r.lives, events := r.events)
    ensures |r.missiles| == |e.missiles| && r.missiles[k].box == e.missiles[k].box
    ensures forall l :: 0 <= l < |e.missiles| && l != k ==> r.missiles[l] == e.missiles[l]
    ensures !(e.player.active && Intersects(e.missiles[k].box, e.player.box)) ==> r == e
    ensures e.player.active && Intersects(e.missiles[k].box, e.player.box) ==> !r.missiles[k].active
    ensures e.player.active && Intersects(e.missiles[k].box, e.player.box) && e.player.health > Missiles.DAMAGE ==>
              && r.player == Tanks.TakeDamage(e.player, Missiles.DAMAGE) && r.lives == e.lives && r.events == e.events
              && r.explosions == e.explosions
    ensures e.player.active && Intersects(e.missiles[k].box, e.player.box) && e.player.health <= Missiles.DAMAGE ==>
              && r.lives == e.lives - 1
              && r.events == e.events + [Events.Notice(Events.PlayerDestroyed, Events.TankData(PlayerRef))]
              && r.explosions == e.explosions + [Explosions.New(e.nextId, e.player.box.CenterX(), e.player.box.CenterY())]
              && (r.lives > 0 ==> r.player == Factory.CreatePlayerTank(Arena.PLAYER_SPAWN_X, Arena.PLAYER_SPAWN_Y))
              && (r.lives <= 0 ==> r.player == Tanks.TakeDamage(e.player, Missiles.DAMAGE) && !r.player.active)
  {
    var b := e.missiles[k].box;
    if !(e.player.active && Intersects(b, e.player.box)) then e
    else
      var hit := Tanks.TakeDamage(e.player, Missiles.DAMAGE);
      var e1 := Spend(e, k).(player := hit);
      if hit.active then e1
      else
        var e2 := AddExplosion(e1, hit.box.CenterX(), hit.box.CenterY());
        var e3 := e2.(lives := e2.lives - 1,
                      events := e2.events + [Events.Notice(Events.PlayerDestroyed, Events.TankData(PlayerRef))]);
        if e3.lives > 0 then RespawnPlayer(e3) else e3
  }

  /** An enemy's shot keeps `allObjects` in step. */
  lemma EnemyShotKeepsSync(e: Engine, k: nat)
    requires k < |e.missiles| && Synced(e)
    ensures Synced(EnemyShot(e, k))
  {
    if e.player.active && Intersects(e.missiles[k].box, e.player.box) {
      var hit := Tanks.TakeDamage(e.player, Missiles.DAMAGE);
      var e1 := Spend(e, k).(player := hit);
      SameRosterSynced(e, e1);
      if !hit.active {
        var e2 := AddExplosion(e1, hit.box.CenterX(), hit.box.CenterY());
        AddExplosionKeepsSync(e1, hit.box.CenterX(), hit.box.CenterY());
        var e3 := e2.(lives := e2.lives - 1,
                      events := e2.events + [Events.Notice(Events.PlayerDestroyed, Events.TankData(PlayerRef))]);
        SameRosterSynced(e2, e3);
        assert EnemyShot(e, k) == if e3.lives > 0 then RespawnPlayer(e3) else e3;
      }
    }
  }


  /** An enemy's shot keeps the identities fresh. */
  lemma EnemyShotKeepsFresh(e: Engine, k: nat)
    requires k < |e.missiles| && Fresh(e)
    ensures Fresh(EnemyShot(e, k))
  {
    if e.player.active && Intersects(e.missiles[k].box, e.player.box) {
      var hit := Tanks.TakeDamage(e.player, Missiles.DAMAGE);
      var e1 := Spend(e, k).(player := hit);
      SameIdsFresh(e, e1);
      if !hit.active {
        var e2 := AddExplosion(e1, hit.box.CenterX(), hit.box.CenterY());
        AddExplosionKeepsFresh(e1, hit.box.CenterX(), hit.box.CenterY());
        var e3 := e2.(lives := e2.lives - 1,
                      events := e2.events + [Events.Notice(Events.PlayerDestroyed, Events.TankData(PlayerRef))]);
        assert EnemyShot(e, k) == if e3.lives > 0 then RespawnPlayer(e3) else e3;
      }
    }
  }


  /**
   * One round of the missile loop: an inactive missile is skipped; an active
   * one is stopped by any wall it overlaps and then, stopped or not, tried
   * against the tanks of the other side.
   */
  function HitCheck(e: Engine, k: nat): (r: Engine)
    requires k < |e.missiles|
    ensures !e.missiles[k].active ==> r == e
    ensures r == e.(player := r.player, enemies := r.enemies, missiles := r.missiles, explosions := r.explosions,
                    all := r.all, nextId := r.nextId, score := r.score, lives := r.lives, events := r.events)
    ensures |r.missiles| == |e.missiles|
    ensures forall l :: 0 <= l < |e.missiles| && l != k ==> r.missiles[l] == e.missiles[l]
    ensures r.missiles[k] == e.missiles[k].(active := r.missiles[k].active)
    ensures r.missiles[k].active ==>
              && e.missiles[k].active
              && !HitsWall(e.missiles[k].box, e.walls)
              && (e.missiles[k].ownerIsPlayer ==> Unstruck(r.enemies, e.missiles[k].box))
    ensures NoneRevived(e.enemies, r.enemies)
  {
    var m := e.missiles[k];
    if !m.active then e
    else
      var e1 := if HitsWall(m.box, e.walls) then Spend(e, k) else e;
      if m.ownerIsPlayer then PlayerShot(e1, k) else EnemyShot(e1, k)
  }

  /**
   * Which side a missile can hurt: a player's missile only the first enemy it
   * strikes, an enemy's missile only the player's tank. A missile that hits a
   * wall is stopped, yet still tried against the tanks in the same round.
   */
  lemma MissileSides(e: Engine, k: nat)
    requires k < |e.missiles| && e.missiles[k].active
    ensures var m := e.missiles[k];
            var r := HitCheck(e, k);
            && (HitsWall(m.box, e.walls) ==> !r.missiles[k].active)
            && (m.ownerIsPlayer ==> r.player == e.player && r.lives == e.lives)
            && (!m.ownerIsPlayer ==> r.enemies == e.enemies && r.score == e.score)
            && (m.ownerIsPlayer && !Unstruck(e.enemies, m.box) ==>
                  var j := FirstStruck(e.enemies, m.box);
                  j < |e.enemies| && r.enemies == e.enemies[j := Tanks.TakeDamage(e.enemies[j], Missiles.DAMAGE)])
            && (!m.ownerIsPlayer && Struck(e.player, m.box) ==>
                  !r.missiles[k].active
                  && (r.player == Tanks.TakeDamage(e.player, Missiles.DAMAGE) || r.lives == e.lives - 1))
  {
    var m := e.missiles[k];
    var e1 := if HitsWall(m.box, e.walls) then Spend(e, k) else e;
    assert e1.missiles[k].box == m.box && e1.enemies == e.enemies && e1.player == e.player;
  }

  /** One round of the missile loop keeps `allObjects` in step. */
  lemma HitCheckKeepsSync(e: Engine, k: nat)
    requires k < |e.missiles| && Synced(e)
    ensures Synced(HitCheck(e, k))
  {
    var m := e.missiles[k];
    if m.active {
      var e1 := if HitsWall(m.box, e.walls) then Spend(e, k) else e;
      SameRosterSynced(e, e1);
      if m.ownerIsPlayer { PlayerShotKeepsSync(e1, k); } else { EnemyShotKeepsSync(e1, k); }
    }
  }


  /** One round of the missile loop keeps the identities fresh. */
  lemma HitCheckKeepsFresh(e: Engine, k: nat)
    requires k < |e.missiles| && Fresh(e)
    ensures Fresh(HitCheck(e, k))
  {
    var m := e.missiles[k];
    if m.active {
      var e1 := if HitsWall(m.box, e.walls) then Spend(e, k) else e;
      SameIdsFresh(e, e1);
      if m.ownerIsPlayer { PlayerShotKeepsFresh(e1, k); } else { EnemyShotKeepsFresh(e1, k); }
    }
  }


  /** Round `k` of the missile loop; rounds past the end of the list change nothing. */
  function Round(e: Engine, k: nat): Engine {
    if k < |e.missiles| then HitCheck(e, k) else e
  }

  /** The missile loop of `checkCollisions`, over the missiles present when it starts. */
  function MissilePass(e: Engine): (r: Engine)
    ensures Evolved(e, r)
  {
    forall x, j | 0 <= j < |e.missiles| && Evolved(e, x) ensures Evolved(e, Round(x, j)) {
      RoundEvolves(e, x, j);
    }
    Loops.IterateKeeps(e, 0, |e.missiles|, Round, (x, j) => Evolved(e, x));
    Loops.Iterate(e, 0, |e.missiles|, Round)
  }

  /**
   * What the missile loop may do to a state: move the player, the enemies,
   * the explosions, `allObjects`, the score, the lives and the notices along,
   * switch missiles off, and damage tanks without bringing any back to life.
   */
  predicate Evolved(e: Engine, r: Engine) {
    && r == e.(player := r.player, enemies := r.enemies, missiles := r.missiles, explosions := r.explosions,
               all := r.all, nextId := r.nextId, score := r.score, lives := r.lives, events := r.events)
    && |r.missiles| == |e.missiles|
    && (forall l :: 0 <= l < |e.missiles| ==> r.missiles[l] == e.missiles[l].(active := r.missiles[l].active))
    && NoneRevived(e.enemies, r.enemies)
  }

  lemma RoundEvolves(e: Engine, x: Engine, j: nat)
    requires Evolved(e, x)
    ensures Evolved(e, Round(x, j))
  {
    if j < |x.missiles| {
      var r := HitCheck(x, j);
      assert forall l :: 0 <= l < |e.missiles| ==> r.missiles[l] == e.missiles[l].(active := r.missiles[l].active);
    }
  }

  /** The missile loop keeps `allObjects` in step. */
  lemma MissilePassKeepsSync(e: Engine)
    requires Synced(e)
    ensures Synced(MissilePass(e))
  {
    forall x, j | 0 <= j < |e.missiles| && Synced(x) ensures Synced(Round(x, j)) {
      if j < |x.missiles| { HitCheckKeepsSync(x, j); }
    }
    Loops.IterateKeeps(e, 0, |e.missiles|, Round, (x, j) => Synced(x));
  }

  /** The missile loop keeps the identities fresh. */
  lemma MissilePassKeepsFresh(e: Engine)
    requires Fresh(e)
    ensures Fresh(MissilePass(e))
  {
    forall x, j | 0 <= j < |e.missiles| && Fresh(x) ensures Fresh(Round(x, j)) {
      if j < |x.missiles| { HitCheckKeepsFresh(x, j); }
    }
    Loops.IterateKeeps(e, 0, |e.missiles|, Round, (x, j) => Fresh(x));
  }

  /**
   * Missile `l` is done with: it is inactive, or it overlaps no wall and,
   * when it is the player's, strikes no enemy.
   */
  predicate Settled(e: Engine, l: nat)
    requires l < |e.missiles|
  {
    var m := e.missiles[l];
    m.active ==> !HitsWall(m.box, e.walls) && (m.ownerIsPlayer ==> Unstruck(e.enemies, m.box))
  }

  /** The missiles before round `j` are settled. */
  predicate SettledBelow(e: Engine, j: nat) {
    j <= |e.missiles| && forall l :: 0 <= l < j ==> Settled(e, l)
  }

  /** Settled missiles stay settled while enemies only take damage. */
  lemma SettledWhileNoneRevived(e: Engine, r: Engine, l: nat)
    requires l < |e.missiles| && l < |r.missiles| && r.missiles[l] == e.missiles[l] && r.walls == e.walls
    requires NoneRevived(e.enemies, r.enemies) && Settled(e, l)
    ensures Settled(r, l)
  {
  }

  /** One round of the loop settles its missile and keeps the earlier ones settled. */
  lemma RoundSettles(e: Engine, k: nat)
    requires k < |e.missiles| && SettledBelow(e, k)
    ensures SettledBelow(Round(e, k), k + 1)
  {
    var e1 := HitCheck(e, k);
    forall l | 0 <= l <= k ensures Settled(e1, l) {
      if l < k {
        SettledWhileNoneRevived(e, e1, l);
      }
    }
  }

  /** After the missile loop, every missile still in flight overlaps no wall, and no player's missile strikes an enemy. */
  lemma MissilePassSettles(e: Engine)
    ensures forall l :: 0 <= l < |MissilePass(e).missiles| ==> Settled(MissilePass(e), l)
  {
    forall x, j | 0 <= j < |e.missiles| && SettledBelow(x, j) && |x.missiles| == |e.missiles|
      ensures SettledBelow(Round(x, j), j + 1) && |Round(x, j).missiles| == |e.missiles|
    {
      RoundSettles(x, j);
    }
    Loops.IterateKeeps(e, 0, |e.missiles|, Round, (x, j) => SettledBelow(x, j) && |x.missiles| == |e.missiles|);
  }

  // ----- med packs -----

  /** `t.isActive() && t.intersects(p)`. */
  predicate PicksUp(t: Tanks.Tank, p: MedPacks.MedPack) {
    t.active && Intersects(t.box, p.box)
  }

  /** The first enemy of the list that picks up `p`, or `|ts|` when none does. */
  function FirstPicker(ts: seq<Tanks.Tank>, p: MedPacks.MedPack): (j: nat)
    ensures j <= |ts|
    ensures j < |ts| ==> PicksUp(ts[j], p)
    ensures forall l :: 0 <= l < j ==> !PicksUp(ts[l], p)
    decreases |ts|
  {
    if ts == [] then 0
    else if PicksUp(ts[0], p) then 0
    else 1 + FirstPicker(ts[1..], p)
  }

  /** The active pack `p` is picked up by the player's tank or by some enemy. */
  predicate Collected(player: Tanks.Tank, enemies: seq<Tanks.Tank>, p: MedPacks.MedPack) {
    p.active && (PicksUp(player, p) || exists j :: 0 <= j < |enemies| && PicksUp(enemies[j], p))
  }

  /** The packs of `ps` that no tank picks up, in order. */
  function Remaining(player: Tanks.Tank, enemies: seq<Tanks.Tank>, ps: seq<MedPacks.MedPack>)
    : (r: seq<MedPacks.MedPack>)
    decreases |ps|
  {
    if ps == [] then []
    else
      var p := ps[|ps| - 1];
      Remaining(player, enemies, ps[..|ps| - 1]) + (if Collected(player, enemies, p) then [] else [p])
  }

  /** A pack remains exactly when it was on the map and no tank picks it up. */
  lemma {:induction false} RemainingIsFilter(player: Tanks.Tank, enemies: seq<Tanks.Tank>, ps: seq<MedPacks.MedPack>)
    ensures forall p :: p in Remaining(player, enemies, ps) <==> p in ps && !Collected(player, enemies, p)
    decreases |ps|
  {
    if ps != [] {
      var init := ps[..|ps| - 1];
      RemainingIsFilter(player, enemies, init);
      assert ps == init + [ps[|ps| - 1]];
      assert forall p :: p in ps <==> p in init || p == ps[|ps| - 1];
    }
  }

  /** The `MEDPACK_COLLECTED` notices of the packs of `ps` the player's tank picks up, in order. */
  function Pickups(player: Tanks.Tank, ps: seq<MedPacks.MedPack>): (ns: seq<Events.Notice>)
    decreases |ps|
  {
    if ps == [] then []
    else
      var p := ps[|ps| - 1];
      Pickups(player, ps[..|ps| - 1])
      + (if p.active && PicksUp(player, p) then [Events.Notice(Events.MedPackCollected, Events.MedPackData(p.id))] else [])
  }

  /** There is one notice per pack the player's tank picks up, each naming its pack. */
  lemma {:induction false} PickupsAnnounce(player: Tanks.Tank, ps: seq<MedPacks.MedPack>)
    ensures forall n :: n in Pickups(player, ps) ==>
              n.event == Events.MedPackCollected
              && exists p :: p in ps && p.active && PicksUp(player, p) && n.data == Events.MedPackData(p.id)
    ensures Pickups(player, ps) == [] <==> forall p :: p in ps ==> !(p.active && PicksUp(player, p))
    decreases |ps|
  {
    if ps != [] {
      var init := ps[..|ps| - 1];
      PickupsAnnounce(player, init);
      assert ps == init + [ps[|ps| - 1]];
      assert forall p :: p in ps <==> p in init || p == ps[|ps| - 1];
    }
  }

  /** The med pack iterator: the engine, and the position in its pack list of the next pack to visit. */
  datatype Cursor = Cursor(e: Engine, at: nat)

  /**
   * One step of the med pack iterator: an inactive pack is skipped; the
   * player's tank picks up an active pack it overlaps, is healed to full
   * health and the pickup is announced; otherwise the first enemy that
   * overlaps the pack picks it up silently and is healed. A picked-up pack
   * leaves the list (the cursor stays put) and `allObjects`.
   */
  function PackStep(c: Cursor, j: nat): Cursor {
    var e := c.e;
    var i := c.at;
    if i >= |e.medPacks| then c
    else
      var p := e.medPacks[i];
      if !p.active then Cursor(e, i + 1)
      else if PicksUp(e.player, p) then Cursor(Collect(e, i), i)
      else
        var k := FirstPicker(e.enemies, p);
        if k < |e.enemies| then Cursor(Seize(e, i, k), i)
        else Cursor(e, i + 1)
  }

  /** The player's tank picks up pack `i`: it is healed, the pack is removed and the pickup announced. */
  function Collect(e: Engine, i: nat): (r: Engine)
    requires i < |e.medPacks|
    ensures r == e.(player := r.player, medPacks := r.medPacks, all := r.all, events := r.events)
    ensures r.player == Tanks.Heal(e.player)
    ensures |r.medPacks| == |e.medPacks| - 1
    ensures r.medPacks[..i] == e.medPacks[..i] && r.medPacks[i..] == e.medPacks[i + 1..]
    ensures multiset(r.all) == multiset(e.all) - multiset{MedPackRef(e.medPacks[i].id)}
    ensures r.events == e.events + [Events.Notice(Events.MedPackCollected, Events.MedPackData(e.medPacks[i].id))]
  {
    var e1 := DropPack(e.(player := Tanks.Heal(e.player)), i);
    e1.(events := e1.events + [Events.Notice(Events.MedPackCollected, Events.MedPackData(e.medPacks[i].id))])
  }

  /** Enemy `k` picks up pack `i`: it is healed and the pack is removed, silently. */
  function Seize(e: Engine, i: nat, k: nat): (r: Engine)
    requires i < |e.medPacks| && k < |e.enemies|
    ensures r == e.(enemies := r.enemies, medPacks := r.medPacks, all := r.all)
    ensures |r.enemies| == |e.enemies| && r.enemies[k] == Tanks.Heal(e.enemies[k])
    ensures forall j :: 0 <= j < |e.enemies| && j != k ==> r.enemies[j] == e.enemies[j]
    ensures |r.medPacks| == |e.medPacks| - 1
    ensures r.medPacks[..i] == e.medPacks[..i] && r.medPacks[i..] == e.medPacks[i + 1..]
    ensures multiset(r.all) == multiset(e.all) - multiset{MedPackRef(e.medPacks[i].id)}
  {
    DropPack(e.(enemies := e.enemies[k := Tanks.Heal(e.enemies[k])]), i)
  }

  /**
   * `c` is where the iterator stands after visiting the first `j` packs of
   * `e`: only the tanks, the packs, `allObjects` and the notices have
   * changed, the packs are scanned up to the cursor and the tanks have
   * reacted to the first `j` packs.
   */
  predicate Scanned(e: Engine, c: Cursor, j: nat) {
    && c.e == e.(player := c.e.player, enemies := c.e.enemies, medPacks := c.e.medPacks, all := c.e.all,
                 events := c.e.events)
    && PacksScanned(e.player, e.enemies, e.medPacks, c, j)
    && TanksServed(e, c.e, j)
  }

  /**
   * The packs behind the cursor are those among the first `j` of `ps` that
   * no tank picks up; the packs from the cursor on are the ones not yet visited.
   */
  predicate PacksScanned(player: Tanks.Tank, enemies: seq<Tanks.Tank>, ps: seq<MedPacks.MedPack>, c: Cursor, j: nat) {
    && j <= |ps|
    && c.at <= |c.e.medPacks|
    && c.e.medPacks[..c.at] == Remaining(player, enemies, ps[..j])
    && c.e.medPacks[c.at..] == ps[j..]
  }

  /**
   * The player's pickups among the first `j` packs of `e` are announced, the
   * player's tank is healed once it has picked something up, and exactly the
   * enemies that seize one of those packs are healed.
   */
  predicate TanksServed(e: Engine, r: Engine, j: nat) {
    && j <= |e.medPacks|
    && r.events == e.events + Pickups(e.player, e.medPacks[..j])
    && r.player == (if Pickups(e.player, e.medPacks[..j]) == [] then e.player else Tanks.Heal(e.player))
    && Unhurt(e.enemies, r.enemies)
    && forall k :: 0 <= k < |e.enemies| ==>
         r.enemies[k] == (if Seizes(e.player, e.enemies, e.medPacks[..j], k) then Tanks.Heal(e.enemies[k]) else e.enemies[k])
  }

  /**
   * Enemy `k` is the first enemy to reach some active pack of `ps` that the
   * player's tank does not pick up, so that pack heals it.
   */
  predicate Seizes(player: Tanks.Tank, enemies: seq<Tanks.Tank>, ps: seq<MedPacks.MedPack>, k: nat) {
    exists p :: p in ps && p.active && !PicksUp(player, p) && FirstPicker(enemies, p) == k
  }

  /** Seizing over one more pack. */
  lemma SeizesOneMore(player: Tanks.Tank, enemies: seq<Tanks.Tank>, ps: seq<MedPacks.MedPack>, j: nat, k: nat)
    requires j < |ps|
    ensures Seizes(player, enemies, ps[..j + 1], k)
            <==> Seizes(player, enemies, ps[..j], k)
                 || (ps[j].active && !PicksUp(player, ps[j]) && FirstPicker(enemies, ps[j]) == k)
  {
    assert ps[..j + 1] == ps[..j] + [ps[j]];
    assert forall p :: p in ps[..j + 1] <==> p in ps[..j] || p == ps[j];
  }

  /** The first picker depends only on which tanks pick the pack up. */
  lemma FirstPickerAlike(ts: seq<Tanks.Tank>, ts': seq<Tanks.Tank>, p: MedPacks.MedPack)
    requires |ts'| == |ts| && forall k :: 0 <= k < |ts| ==> PicksUp(ts'[k], p) == PicksUp(ts[k], p)
    ensures FirstPicker(ts', p) == FirstPicker(ts, p)
  {
  }

  /** A pack that no enemy seizes leaves every enemy's seizing as it was. */
  lemma NobodySeizes(e: Engine, j: nat)
    requires j < |e.medPacks|
    requires var p := e.medPacks[j]; !p.active || PicksUp(e.player, p) || FirstPicker(e.enemies, p) == |e.enemies|
    ensures forall k :: 0 <= k < |e.enemies| ==>
              Seizes(e.player, e.enemies, e.medPacks[..j + 1], k) == Seizes(e.player, e.enemies, e.medPacks[..j], k)
  {
    forall k | 0 <= k < |e.enemies|
      ensures Seizes(e.player, e.enemies, e.medPacks[..j + 1], k) == Seizes(e.player, e.enemies, e.medPacks[..j], k)
    {
      SeizesOneMore(e.player, e.enemies, e.medPacks, j, k);
    }
  }

  /** Every tank of `ts'` is its counterpart in `ts`, or that tank, active, healed. */
  predicate Unhurt(ts: seq<Tanks.Tank>, ts': seq<Tanks.Tank>) {
    |ts'| == |ts| && forall k :: 0 <= k < |ts| ==> ts'[k] == ts[k] || (ts[k].active && ts'[k] == Tanks.Heal(ts[k]))
  }

  /** Healing leaves whether a tank picks up a pack unchanged. */
  lemma HealedReachAlike(e: Engine, r: Engine, p: MedPacks.MedPack)
    requires r.player == e.player || r.player == Tanks.Heal(e.player)
    requires Unhurt(e.enemies, r.enemies)
    ensures PicksUp(r.player, p) == PicksUp(e.player, p)
    ensures forall k :: 0 <= k < |e.enemies| ==> PicksUp(r.enemies[k], p) == PicksUp(e.enemies[k], p)
    ensures Collected(r.player, r.enemies, p) == Collected(e.player, e.enemies, p)
  {
    assert forall k :: 0 <= k < |e.enemies| ==> PicksUp(r.enemies[k], p) == PicksUp(e.enemies[k], p);
  }

  /** Remaining and Pickups over one more pack. */
  lemma ScanOneMore(player: Tanks.Tank, enemies: seq<Tanks.Tank>, ps: seq<MedPacks.MedPack>, j: nat)
    requires j < |ps|
    ensures Remaining(player, enemies, ps[..j + 1])
            == Remaining(player, enemies, ps[..j]) + (if Collected(player, enemies, ps[j]) then [] else [ps[j]])
    ensures Pickups(player, ps[..j + 1])
            == Pickups(player, ps[..j])
               + (if ps[j].active && PicksUp(player, ps[j])
                  then [Events.Notice(Events.MedPackCollected, Events.MedPackData(ps[j].id))] else [])
  {
    assert ps[..j + 1][..j] == ps[..j];
  }

  /** Moving the cursor past a pack no tank picks up keeps the packs scanned. */
  lemma SkipScans(player: Tanks.Tank, enemies: seq<Tanks.Tank>, ps: seq<MedPacks.MedPack>, c: Cursor, j: nat)
    requires PacksScanned(player, enemies, ps, c, j) && j < |ps| && !Collected(player, enemies, ps[j])
    ensures PacksScanned(player, enemies, ps, Cursor(c.e, c.at + 1), j + 1)
  {
    var mp := c.e.medPacks;
    ScanOneMore(player, enemies, ps, j);
    assert |mp[c.at..]| == |ps[j..]|;
    assert mp[c.at] == ps[j] by { assert mp[c.at..][0] == ps[j..][0]; }
    assert mp[..c.at + 1] == mp[..c.at] + [mp[c.at]];
    assert mp[c.at + 1..] == mp[c.at..][1..];
  }

  /** Removing a picked-up pack under the cursor keeps the packs scanned. */
  lemma DropScans(player: Tanks.Tank, enemies: seq<Tanks.Tank>, ps: seq<MedPacks.MedPack>, c: Cursor, j: nat, r: Engine)
    requires PacksScanned(player, enemies, ps, c, j) && j < |ps| && c.at < |c.e.medPacks|
    requires Collected(player, enemies, ps[j])
    requires r.medPacks == c.e.medPacks[..c.at] + c.e.medPacks[c.at + 1..]
    ensures PacksScanned(player, enemies, ps, Cursor(r, c.at), j + 1)
  {
    var mp := c.e.medPacks;
    ScanOneMore(player, enemies, ps, j);
    assert mp[c.at + 1..] == mp[c.at..][1..];
    assert r.medPacks[..c.at] == mp[..c.at];
  }

  /** A pack the player's tank does not pick up leaves the player and the notices as they were. */
  lemma PassedOver(e: Engine, r: Engine, r': Engine, j: nat)
    requires TanksServed(e, r, j) && j < |e.medPacks|
    requires !(e.medPacks[j].active && PicksUp(e.player, e.medPacks[j]))
    requires r'.events == r.events && r'.player == r.player && Unhurt(e.enemies, r'.enemies)
    requires forall k :: 0 <= k < |e.enemies| ==>
               r'.enemies[k] == (if Seizes(e.player, e.enemies, e.medPacks[..j + 1], k) then Tanks.Heal(e.enemies[k]) else e.enemies[k])
    ensures TanksServed(e, r', j + 1)
  {
    ScanOneMore(e.player, e.enemies, e.medPacks, j);
  }

  /** The player's pickup is announced and heals the player's tank. */
  lemma CollectServes(e: Engine, c: Cursor, j: nat)
    requires TanksServed(e, c.e, j) && j < |e.medPacks| && c.at < |c.e.medPacks|
    requires c.e.medPacks[c.at] == e.medPacks[j] && e.medPacks[j].active && PicksUp(e.player, e.medPacks[j])
    ensures TanksServed(e, Collect(c.e, c.at), j + 1)
  {
    var r := Collect(c.e, c.at);
    var n := Events.Notice(Events.MedPackCollected, Events.MedPackData(e.medPacks[j].id));
    ScanOneMore(e.player, e.enemies, e.medPacks, j);
    NobodySeizes(e, j);
    assert r.events == c.e.events + [n];
    assert r.player == Tanks.Heal(e.player);
  }

  /** The first enemy to reach an active pack the player's tank leaves picks it up and is healed. */
  lemma SeizeServes(e: Engine, c: Cursor, j: nat, k: nat)
    requires TanksServed(e, c.e, j) && j < |e.medPacks| && c.at < |c.e.medPacks| && k < |c.e.enemies|
    requires e.medPacks[j].active && !PicksUp(e.player, e.medPacks[j]) && c.e.enemies[k].active
    requires FirstPicker(e.enemies, e.medPacks[j]) == k
    ensures TanksServed(e, Seize(c.e, c.at, k), j + 1)
  {
    var r := Seize(c.e, c.at, k);
    assert Tanks.Heal(c.e.enemies[k]) == Tanks.Heal(e.enemies[k]);
    assert Unhurt(e.enemies, r.enemies);
    forall l | 0 <= l < |e.enemies|
      ensures r.enemies[l] == (if Seizes(e.player, e.enemies, e.medPacks[..j + 1], l) then Tanks.Heal(e.enemies[l]) else e.enemies[l])
    {
      SeizesOneMore(e.player, e.enemies, e.medPacks, j, l);
    }
    PassedOver(e, c.e, r, j);
  }

  /** Every step of the iterator keeps the scan in order. */
  lemma PackStepScans(e: Engine, c: Cursor, j: nat)
    requires Scanned(e, c, j) && j < |e.medPacks|
    ensures Scanned(e, PackStep(c, j), j + 1)
  {
    var ps := e.medPacks;
    var x := c.e;
    var i := c.at;
    assert i < |x.medPacks| by { assert |x.medPacks[i..]| == |ps[j..]|; }
    var p := x.medPacks[i];
    assert p == ps[j] by { assert x.medPacks[i..][0] == ps[j..][0]; }
    if !p.active || (!PicksUp(x.player, p) && FirstPicker(x.enemies, p) >= |x.enemies|) {
      PackSkipScans(e, c, j);
    } else if PicksUp(x.player, p) {
      PackCollectScans(e, c, j);
    } else {
      PackSeizeScans(e, c, j);
    }
  }

  /** A pack nobody picks up is passed over. */
  lemma PackSkipScans(e: Engine, c: Cursor, j: nat)
    requires Scanned(e, c, j) && j < |e.medPacks|
    requires c.at < |c.e.medPacks| && c.e.medPacks[c.at] == e.medPacks[j]
    requires var p := c.e.medPacks[c.at];
             !p.active || (!PicksUp(c.e.player, p) && FirstPicker(c.e.enemies, p) >= |c.e.enemies|)
    ensures Scanned(e, PackStep(c, j), j + 1)
  {
    var p := c.e.medPacks[c.at];
    HealedReachAlike(e, c.e, p);
    FirstPickerAlike(e.enemies, c.e.enemies, p);
    SkipScans(e.player, e.enemies, e.medPacks, c, j);
    NobodySeizes(e, j);
    PassedOver(e, c.e, c.e, j);
  }

  /** A pack the player's tank reaches is collected. */
  lemma PackCollectScans(e: Engine, c: Cursor, j: nat)
    requires Scanned(e, c, j) && j < |e.medPacks|
    requires c.at < |c.e.medPacks| && c.e.medPacks[c.at] == e.medPacks[j]
    requires c.e.medPacks[c.at].active && PicksUp(c.e.player, c.e.medPacks[c.at])
    ensures Scanned(e, PackStep(c, j), j + 1)
  {
    var p := c.e.medPacks[c.at];
    HealedReachAlike(e, c.e, p);
    DropScans(e.player, e.enemies, e.medPacks, c, j, Collect(c.e, c.at));
    CollectServes(e, c, j);
  }

  /** A pack only an enemy reaches goes to the first such enemy. */
  lemma PackSeizeScans(e: Engine, c: Cursor, j: nat)
    requires Scanned(e, c, j) && j < |e.medPacks|
    requires c.at < |c.e.medPacks| && c.e.medPacks[c.at] == e.medPacks[j]
    requires var p := c.e.medPacks[c.at];
             p.active && !PicksUp(c.e.player, p) && FirstPicker(c.e.enemies, p) < |c.e.enemies|
    ensures Scanned(e, PackStep(c, j), j + 1)
  {
    var p := c.e.medPacks[c.at];
    HealedReachAlike(e, c.e, p);
    FirstPickerAlike(e.enemies, c.e.enemies, p);
    var k := FirstPicker(c.e.enemies, p);
    DropScans(e.player, e.enemies, e.medPacks, c, j, Seize(c.e, c.at, k));
    SeizeServes(e, c, j, k);
  }

  /** The med pack loop of `checkCollisions`. */
  function PackPass(e: Engine): (r: Engine)
    ensures r == e.(player := r.player, enemies := r.enemies, medPacks := r.medPacks, all := r.all, events := r.events)
    ensures r.medPacks == Remaining(e.player, e.enemies, e.medPacks)
    ensures r.events == e.events + Pickups(e.player, e.medPacks)
    ensures r.player == (if Pickups(e.player, e.medPacks) == [] then e.player else Tanks.Heal(e.player))
    ensures Unhurt(e.enemies, r.enemies)
    ensures forall k :: 0 <= k < |e.enemies| ==>
              r.enemies[k] == (if exists p :: p in e.medPacks && p.active && !PicksUp(e.player, p) && FirstPicker(e.enemies, p) == k
                               then Tanks.Heal(e.enemies[k]) else e.enemies[k])
  {
    var n := |e.medPacks|;
    forall c, j | 0 <= j < n && Scanned(e, c, j) ensures Scanned(e, PackStep(c, j), j + 1) {
      PackStepScans(e, c, j);
    }
    assert e.medPacks[..0] == [] && e.medPacks[0..] == e.medPacks && e.medPacks[..n] == e.medPacks;
    Loops.IterateKeeps(Cursor(e, 0), 0, n, PackStep, (c, j) => Scanned(e, c, j));
    var c := Loops.Iterate(Cursor(e, 0), 0, n, PackStep);
    assert c.e.medPacks == c.e.medPacks[..c.at];
    c.e
  }

  /** A pickup by the player's tank keeps `allObjects` in step, the identities fresh and the packs well placed. */
  lemma CollectKeepsInvariant(e: Engine, i: nat, walls: seq<Walls.Wall>)
    requires i < |e.medPacks|
    ensures Synced(e) ==> Synced(Collect(e, i))
    ensures Fresh(e) ==> Fresh(Collect(e, i))
    ensures PacksPlaced(e.medPacks, walls) ==> PacksPlaced(Collect(e, i).medPacks, walls)
  {
    var e0 := e.(player := Tanks.Heal(e.player));
    assert Population(e0) == Population(e);
    DropPackKeepsParts(e0, i);
    RemoveAtKeepsOrder(e.medPacks, i, e.nextId, walls);
    var e1 := DropPack(e0, i);
    assert Population(Collect(e, i)) == Population(e1);
  }

  /** A pickup by an enemy keeps `allObjects` in step, the identities fresh and the packs well placed. */
  lemma SeizeKeepsInvariant(e: Engine, i: nat, k: nat, walls: seq<Walls.Wall>)
    requires i < |e.medPacks| && k < |e.enemies|
    ensures Synced(e) ==> Synced(Seize(e, i, k))
    ensures Fresh(e) ==> Fresh(Seize(e, i, k))
    ensures PacksPlaced(e.medPacks, walls) ==> PacksPlaced(Seize(e, i, k).medPacks, walls)
  {
    var e0 := e.(enemies := e.enemies[k := Tanks.Heal(e.enemies[k])]);
    assert Population(e0) == Population(e);
    DropPackKeepsParts(e0, i);
    RemoveAtKeepsOrder(e.medPacks, i, e.nextId, walls);
  }

  /** One step of the iterator keeps `allObjects` in step, the identities fresh and the packs well placed. */
  lemma PackStepKeepsInvariant(c: Cursor, j: nat, walls: seq<Walls.Wall>)
    ensures Synced(c.e) ==> Synced(PackStep(c, j).e)
    ensures Fresh(c.e) ==> Fresh(PackStep(c, j).e)
    ensures PacksPlaced(c.e.medPacks, walls) ==> PacksPlaced(PackStep(c, j).e.medPacks, walls)
  {
    var e := c.e;
    var i := c.at;
    if i < |e.medPacks| && e.medPacks[i].active {
      var p := e.medPacks[i];
      if PicksUp(e.player, p) {
        CollectKeepsInvariant(e, i, walls);
      } else {
        var k := FirstPicker(e.enemies, p);
        if k < |e.enemies| {
          SeizeKeepsInvariant(e, i, k, walls);
        }
      }
    }
  }

  /** The med pack loop keeps `allObjects` in step, the identities fresh and the packs well placed. */
  lemma PackPassKeepsInvariant(e: Engine)
    ensures Synced(e) ==> Synced(PackPass(e))
    ensures Fresh(e) ==> Fresh(PackPass(e))
    ensures PacksPlaced(e.medPacks, e.walls) ==> PacksPlaced(PackPass(e).medPacks, e.walls)
  {
    var n := |e.medPacks|;
    forall c: Cursor, j: nat | Synced(c.e) ensures Synced(PackStep(c, j).e) {
      PackStepKeepsInvariant(c, j, e.walls);
    }
    forall c: Cursor, j: nat | Fresh(c.e) ensures Fresh(PackStep(c, j).e) {
      PackStepKeepsInvariant(c, j, e.walls);
    }
    forall c: Cursor, j: nat | PacksPlaced(c.e.medPacks, e.walls) ensures PacksPlaced(PackStep(c, j).e.medPacks, e.walls) {
      PackStepKeepsInvariant(c, j, e.walls);
    }
    if Synced(e) {
      Loops.IterateKeeps(Cursor(e, 0), 0, n, PackStep, (c: Cursor, j) => Synced(c.e));
    }
    if Fresh(e) {
      Loops.IterateKeeps(Cursor(e, 0), 0, n, PackStep, (c: Cursor, j) => Fresh(c.e));
    }
    if PacksPlaced(e.medPacks, e.walls) {
      Loops.IterateKeeps(Cursor(e, 0), 0, n, PackStep, (c: Cursor, j) => PacksPlaced(c.e.medPacks, e.walls));
    }
  }

  /**
   * `checkCollisions`: the missile loop, then the med pack loop against the
   * tanks the missiles left.
   */
  function CheckCollisions(e: Engine): (r: Engine)
    ensures r == e.(player := r.player, enemies := r.enemies, missiles := r.missiles, medPacks := r.medPacks,
                    explosions := r.explosions, all := r.all, nextId := r.nextId, score := r.score,
                    lives := r.lives, events := r.events)
    ensures |r.enemies| == |e.enemies| && |r.missiles| == |e.missiles|
    ensures forall l :: 0 <= l < |e.missiles| ==> r.missiles[l] == e.missiles[l].(active := r.missiles[l].active)
    ensures forall l :: 0 <= l < |r.missiles| ==> Settled(r, l)
    ensures var m := MissilePass(e);
            && r.medPacks == Remaining(m.player, m.enemies, e.medPacks)
            && r.events == m.events + Pickups(m.player, e.medPacks)
    ensures Synced(e) && Fresh(e) && PacksPlaced(e.medPacks, e.walls) ==>
              Synced(r) && Fresh(r) && PacksPlaced(r.medPacks, r.walls)
  {
    CheckCollisionsSettles(e);
    CheckCollisionsKeepsInvariant(e);
    PackPass(MissilePass(e))
  }

  /** After the missile loop and then the med pack loop, every missile is settled. */
  lemma CheckCollisionsSettles(e: Engine)
    ensures forall l :: 0 <= l < |PackPass(MissilePass(e)).missiles| ==> Settled(PackPass(MissilePass(e)), l)
  {
    var e1 := MissilePass(e);
    MissilePassSettles(e);
    var r := PackPass(e1);
    forall l | 0 <= l < |r.missiles| ensures Settled(r, l) {
      assert Settled(e1, l);
      assert forall j :: 0 <= j < |r.enemies| ==> r.enemies[j].box == e1.enemies[j].box && r.enemies[j].active == e1.enemies[j].active;
    }
  }

  /** `checkCollisions` keeps `allObjects` in step, the identities fresh and the packs well placed. */
  lemma CheckCollisionsKeepsInvariant(e: Engine)
    ensures Synced(e) && Fresh(e) && PacksPlaced(e.medPacks, e.walls) ==>
              && Synced(PackPass(MissilePass(e))) && Fresh(PackPass(MissilePass(e)))
              && PacksPlaced(PackPass(MissilePass(e)).medPacks, e.walls)
  {
    if Synced(e) && Fresh(e) && PacksPlaced(e.medPacks, e.walls) {
      MissilePassKeepsSync(e);
      MissilePassKeepsFresh(e);
      PackPassKeepsInvariant(MissilePass(e));
    }
  }

  // ----- the tanks, the score and the lives through checkCollisions -----

  /**
   * The parts of the engine's invariant about the tanks and the tallies:
   * the tanks are placed and sound, the score counts 10 per destroyed enemy,
   * and the player's tank is active exactly while lives remain.
   */
  predicate Fighting(e: Engine) {
    && TanksPlaced(e)
    && TanksVital(e)
    && e.score == 10 * Destroyed(e.enemies)
    && 0 <= e.lives <= Arena.INITIAL_LIVES
    && (e.player.active <==> e.lives > 0)
  }

  /** Damage to an active, sound tank leaves it sound. */
  lemma DamageKeepsVital(t: Tanks.Tank)
    requires Vital(t) && t.active
    ensures Vital(Tanks.TakeDamage(t, Missiles.DAMAGE))
  {
    assert Missiles.DAMAGE > 0;
  }

  /** A player's shot keeps the tanks placed and sound and the score in step. */
  lemma PlayerShotFights(e: Engine, k: nat)
    requires k < |e.missiles| && Fighting(e)
    ensures Fighting(PlayerShot(e, k))
  {
    var r := PlayerShot(e, k);
    var j := FirstStruck(e.enemies, e.missiles[k].box);
    if j < |e.enemies| {
      var hit := Tanks.TakeDamage(e.enemies[j], Missiles.DAMAGE);
      DamageKeepsVital(e.enemies[j]);
      assert r.enemies == e.enemies[j := hit];
      assert forall l :: 0 <= l < |r.enemies| ==> r.enemies[l] == hit || r.enemies[l] == e.enemies[l];
    }
  }

  /**
   * An enemy's shot keeps the tanks placed and sound and the lives in step:
   * a respawned player's tank stands on the clear spawn point.
   */
  lemma EnemyShotFights(e: Engine, k: nat)
    requires k < |e.missiles| && Fighting(e) && SpawnClear(e.walls)
    ensures Fighting(EnemyShot(e, k))
  {
    var r := EnemyShot(e, k);
    if e.player.active && Intersects(e.missiles[k].box, e.player.box) {
      DamageKeepsVital(e.player);
      if e.player.health <= Missiles.DAMAGE && r.lives > 0 {
        FreshTankPlaced(e.walls);
        assert TanksPlaced(r) && TanksVital(r);
      }
    }
  }

  /** The player's tank spawned at the spawn point is placed and sound when that spot is clear. */
  lemma FreshTankPlaced(walls: seq<Walls.Wall>)
    requires SpawnClear(walls)
    ensures Placed(Factory.CreatePlayerTank(Arena.PLAYER_SPAWN_X, Arena.PLAYER_SPAWN_Y), walls)
    ensures Vital(Factory.CreatePlayerTank(Arena.PLAYER_SPAWN_X, Arena.PLAYER_SPAWN_Y))
  {
    assert Factory.CreatePlayerTank(Arena.PLAYER_SPAWN_X, Arena.PLAYER_SPAWN_Y).box
           == Arena.TankBox(Arena.PLAYER_SPAWN_X, Arena.PLAYER_SPAWN_Y);
  }

  /** One round of the missile loop keeps the tanks and the tallies in order. */
  lemma HitCheckFights(e: Engine, k: nat)
    requires k < |e.missiles| && Fighting(e) && SpawnClear(e.walls)
    ensures Fighting(HitCheck(e, k))
  {
    var m := e.missiles[k];
    if m.active {
      var e1 := if HitsWall(m.box, e.walls) then Spend(e, k) else e;
      if m.ownerIsPlayer { PlayerShotFights(e1, k); } else { EnemyShotFights(e1, k); }
    }
  }

  /** The missile loop keeps the tanks and the tallies in order. */
  lemma MissilePassFights(e: Engine)
    requires Fighting(e) && SpawnClear(e.walls)
    ensures Fighting(MissilePass(e))
  {
    forall x: Engine, j: nat | Fighting(x) && x.walls == e.walls
      ensures Fighting(Round(x, j)) && Round(x, j).walls == e.walls
    {
      if j < |x.missiles| { HitCheckFights(x, j); }
    }
    Loops.IterateKeeps(e, 0, |e.missiles|, Round, (x: Engine, j: nat) => Fighting(x) && x.walls == e.walls);
  }

  /** Healing some active enemies destroys or revives none. */
  lemma {:induction false} UnhurtKeepsDestroyed(ts: seq<Tanks.Tank>, ts': seq<Tanks.Tank>)
    requires Unhurt(ts, ts')
    ensures Destroyed(ts') == Destroyed(ts)
    decreases |ts|
  {
    if ts != [] {
      assert Unhurt(ts[1..], ts'[1..]) by {
        forall l | 0 <= l < |ts[1..]| ensures ts'[1..][l] == ts[1..][l] || (ts[1..][l].active && ts'[1..][l] == Tanks.Heal(ts[1..][l])) {
          assert ts'[1..][l] == ts'[l + 1] && ts[1..][l] == ts[l + 1];
        }
      }
      UnhurtKeepsDestroyed(ts[1..], ts'[1..]);
      assert ts'[0] == ts[0] || ts'[0] == Tanks.Heal(ts[0]);
    }
  }

  /** The med pack loop keeps the tanks and the tallies in order: only active tanks are healed. */
  lemma PackPassFights(e: Engine)
    requires Fighting(e)
    ensures Fighting(PackPass(e))
  {
    var r := PackPass(e);
    PickupsAnnounce(e.player, e.medPacks);
    UnhurtKeepsDestroyed(e.enemies, r.enemies);
    assert forall l :: 0 <= l < |r.enemies| ==> r.enemies[l] == e.enemies[l] || r.enemies[l] == Tanks.Heal(e.enemies[l]);
  }

  /** `checkCollisions` keeps the tanks and the tallies in order. */
  lemma CheckCollisionsFights(e: Engine)
    requires Fighting(e) && SpawnClear(e.walls)
    ensures Fighting(CheckCollisions(e))
  {
    MissilePassFights(e);
    PackPassFights(MissilePass(e));
  }

  /** From `e` to `r` the score never went down, the lives never went up and notices were only appended. */
  predicate Progressed(e: Engine, r: Engine) {
    r.score >= e.score && r.lives <= e.lives && e.events <= r.events
  }

  /** One round of the missile loop only moves forward. */
  lemma HitCheckProgresses(e: Engine, k: nat)
    requires k < |e.missiles|
    ensures Progressed(e, HitCheck(e, k))
  {
    var m := e.missiles[k];
    if m.active {
      var e1 := if HitsWall(m.box, e.walls) then Spend(e, k) else e;
      if m.ownerIsPlayer {
        var r := PlayerShot(e1, k);
        if Destroyed(r.enemies) > Destroyed(e1.enemies) {
          var j :| 0 <= j < |e1.enemies| && e1.enemies[j].active && !r.enemies[j].active
                   && r.events == e1.events + [Events.Notice(Events.EnemyDestroyed, Events.TankData(EnemyRef(j)))];
        }
      } else {
        var r := EnemyShot(e1, k);
        assert e1.events <= r.events;
      }
    }
  }

  /** The missile loop only moves forward. */
  lemma MissilePassProgresses(e: Engine)
    ensures Progressed(e, MissilePass(e))
  {
    forall x: Engine, j: nat | Progressed(e, x) ensures Progressed(e, Round(x, j)) {
      if j < |x.missiles| {
        HitCheckProgresses(x, j);
        PrefixTransitive(e.events, x.events, Round(x, j).events);
      }
    }
    Loops.IterateKeeps(e, 0, |e.missiles|, Round, (x: Engine, j: nat) => Progressed(e, x));
  }

  /** `checkCollisions` only moves forward. */
  lemma CheckCollisionsProgresses(e: Engine)
    ensures Progressed(e, CheckCollisions(e))
  {
    var e1 := MissilePass(e);
    MissilePassProgresses(e);
    PrefixTransitive(e.events, e1.events, PackPass(e1).events);
  }

  // ----- checkGameConditions -----

  /** `noneMatch(Tank::isActive)` over the enemies. */
  predicate NoneActive(ts: seq<Tanks.Tank>) {
    forall j :: 0 <= j < |ts| ==> !ts[j].active
  }

  /**
   * `checkGameConditions`: the game is won when no enemy is active, then
   * lost when no life is left and the player's tank is destroyed; each
   * verdict is announced, so both can be announced in one update, the loss
   * last.
   */
  function Conditions(e: Engine): (r: Engine)
    ensures r == e.(state := r.state, events := r.events)
    ensures e.lives <= 0 && !e.player.active ==> r.state == Lost
    ensures !(e.lives <= 0 && !e.player.active) && NoneActive(e.enemies) ==> r.state == Won
    ensures !(e.lives <= 0 && !e.player.active) && !NoneActive(e.enemies) ==> r.state == e.state
    ensures r.events == e.events + (if NoneActive(e.enemies) then [Events.Notice(Events.GameWon, Events.NoData)] else [])
                                 + (if e.lives <= 0 && !e.player.active
                                    then [Events.Notice(Events.GameLost, Events.NoData)] else [])
  {
    var e1 := if NoneActive(e.enemies) then e.(state := Won, events := e.events + [Events.Notice(Events.GameWon, Events.NoData)])
              else e;
    if e1.lives <= 0 && !e1.player.active
    then e1.(state := Lost, events := e1.events + [Events.Notice(Events.GameLost, Events.NoData)])
    else e1
  }

  /** `checkGameConditions` after a collision check in play leaves the tallies and verdicts in step. */
  lemma ConditionsKeepLedger(e: Engine)
    requires Fighting(e) && e.state == Playing
    ensures Fighting(Conditions(e)) && Ledger(Conditions(e))
  {
  }

  /**
   * The verdict of `checkGameConditions` in play: lost exactly when no life
   * is left, won exactly when lives remain and every enemy is destroyed,
   * still playing otherwise.
   */
  lemma ConditionsDecide(e: Engine)
    requires Fighting(e) && e.state == Playing
    ensures Conditions(e).state == Lost <==> e.lives == 0
    ensures Conditions(e).state == Won <==> e.lives > 0 && NoneActive(e.enemies)
    ensures Conditions(e).state == Playing <==> e.lives > 0 && !NoneActive(e.enemies)
  {
  }
}
