/**
 * `respawnMedPacks`: places 5 to 7 med packs at random spots of the area
 * [100, 900) x [100, 700), giving each pack up to 50 tries to find a spot that
 * overlaps no wall and lies at least 180 away from every pack already on the
 * map (the ones placed earlier in the same call included). A pack whose tries
 * all fail is skipped.
 */
module Respawn {
  import opened Geometry
  import opened Wrappers
  import opened World
  import MedPacks
  import Walls
  import Loops
  import Objects

  const MIN_PACKS: nat := 5
  const MAX_ATTEMPTS: nat := 50

  /** A `nextDouble()` draw. */
  type Roll = r: real | 0.0 <= r < 1.0 witness 0.0
  /** A `nextInt(3)` draw. */
  type Extra = n: nat | n < 3 witness 0

  /**
   * The draws of one call: how many packs beyond the minimum to place, and
   * the pair of rolls of attempt `k` for pack `i`, `spot(i, k)`.
   */
  datatype SpawnDraws = SpawnDraws(extra: Extra, spot: (nat, nat) -> (Roll, Roll))

  /** The spot attempt `k` for pack `i` tries. */
  function Try(d: SpawnDraws, i: nat, k: nat): (p: (real, real))
    ensures SPAWN_MIN <= p.0 < SPAWN_MIN + SPAWN_SPAN_X
    ensures SPAWN_MIN <= p.1 < SPAWN_MIN + SPAWN_SPAN_Y
  {
    var (u, v) := d.spot(i, k);
    assert u * SPAWN_SPAN_X < SPAWN_SPAN_X && v * SPAWN_SPAN_Y < SPAWN_SPAN_Y;
    (SPAWN_MIN + u * SPAWN_SPAN_X, SPAWN_MIN + v * SPAWN_SPAN_Y)
  }

  /** A new pack at (x, y) would overlap no wall and keep its distance from every pack. */
  predicate Acceptable(walls: seq<Walls.Wall>, packs: seq<MedPacks.MedPack>, x: real, y: real) {
    && (forall w :: w in walls ==> !Intersects(MedPacks.New(0, x, y).box, w.box))
    && (forall p :: p in packs ==> FarFrom(x, y, p))
  }

  /**
   * The tries for pack `i` from attempt `k` on: the first acceptable spot
   * among attempts `k` to 49, or nothing when none of them is acceptable.
   */
  function FindSpot(walls: seq<Walls.Wall>, packs: seq<MedPacks.MedPack>, d: SpawnDraws, i: nat, k: nat)
    : (r: Option<(real, real)>)
    ensures r.Some? ==> exists a :: k <= a < MAX_ATTEMPTS && r.value == Try(d, i, a)
                                      && forall b :: k <= b < a ==> !Acceptable(walls, packs, Try(d, i, b).0, Try(d, i, b).1)
    ensures r.Some? ==> Acceptable(walls, packs, r.value.0, r.value.1)
    ensures r.None? <==> forall a :: k <= a < MAX_ATTEMPTS ==> !Acceptable(walls, packs, Try(d, i, a).0, Try(d, i, a).1)
    decreases MAX_ATTEMPTS - k
  {
    if k >= MAX_ATTEMPTS then None
    else
      var (x, y) := Try(d, i, k);
      if Acceptable(walls, packs, x, y) then Some((x, y))
      else FindSpot(walls, packs, d, i, k + 1)
  }

  /** Pack `i` of one call: added at the first acceptable spot of its tries, or skipped. */
  function PlaceOne(e: Engine, d: SpawnDraws, i: nat): Engine
  {
    var found := FindSpot(e.walls, e.medPacks, d, i, 0);
    if found.Some? then AddPack(e, found.value.0, found.value.1) else e
  }

  /**
   * Pack `i` of a call: when none of its tries is acceptable nothing changes;
   * otherwise a new active pack at the spot found goes to the end of the pack
   * list under the next identity, and its reference joins `allObjects`.
   */
  lemma PlaceOneAdds(e: Engine, d: SpawnDraws, i: nat)
    ensures FindSpot(e.walls, e.medPacks, d, i, 0).None? ==> PlaceOne(e, d, i) == e
    ensures var found := FindSpot(e.walls, e.medPacks, d, i, 0);
            var r := PlaceOne(e, d, i);
            found.Some? ==>
              && r == e.(medPacks := r.medPacks, all := r.all, nextId := e.nextId + 1)
              && r.medPacks == e.medPacks + [MedPacks.New(e.nextId, found.value.0, found.value.1)]
              && multiset(r.all) == multiset(e.all) + multiset{Objects.MedPackRef(e.nextId)}
  {
    var found := FindSpot(e.walls, e.medPacks, d, i, 0);
    if found.Some? {
      var r := AddPack(e, found.value.0, found.value.1);
      assert r.medPacks == e.medPacks + [MedPacks.New(e.nextId, found.value.0, found.value.1)];
    }
  }

  /** Pack `i` is placed exactly when one of its tries is acceptable. */
  lemma PlaceOneAddsIffAcceptable(e: Engine, d: SpawnDraws, i: nat)
    ensures |PlaceOne(e, d, i).medPacks| == |e.medPacks| || |PlaceOne(e, d, i).medPacks| == |e.medPacks| + 1
    ensures |PlaceOne(e, d, i).medPacks| == |e.medPacks| + 1 <==> !NoneAcceptable(e.walls, e.medPacks, d, i)
  {
    PlaceOneAdds(e, d, i);
  }

  /**
   * The engine after the first `i` rounds of a call, each round placing its
   * pack against what the rounds before it left.
   */
  function Rounds(e: Engine, d: SpawnDraws, i: nat): Engine {
    Loops.Iterate(e, 0, i, Placing(d))
  }

  /** Attempt `a` for pack `i` is the first acceptable one of its 50 tries. */
  predicate FirstAcceptable(walls: seq<Walls.Wall>, packs: seq<MedPacks.MedPack>, d: SpawnDraws, i: nat, a: nat) {
    && a < MAX_ATTEMPTS
    && Acceptable(walls, packs, Try(d, i, a).0, Try(d, i, a).1)
    && forall b :: 0 <= b < a ==> !Acceptable(walls, packs, Try(d, i, b).0, Try(d, i, b).1)
  }

  /** None of the 50 tries for pack `i` is acceptable. */
  predicate NoneAcceptable(walls: seq<Walls.Wall>, packs: seq<MedPacks.MedPack>, d: SpawnDraws, i: nat) {
    forall a :: 0 <= a < MAX_ATTEMPTS ==> !Acceptable(walls, packs, Try(d, i, a).0, Try(d, i, a).1)
  }

  /** The first acceptable try is the spot the tries find. */
  lemma FirstAcceptableFound(walls: seq<Walls.Wall>, packs: seq<MedPacks.MedPack>, d: SpawnDraws, i: nat, a: nat)
    requires FirstAcceptable(walls, packs, d, i, a)
    ensures FindSpot(walls, packs, d, i, 0) == Some(Try(d, i, a))
  {
    var found := FindSpot(walls, packs, d, i, 0);
    var a' :| 0 <= a' < MAX_ATTEMPTS && found.value == Try(d, i, a')
              && forall b :: 0 <= b < a' ==> !Acceptable(walls, packs, Try(d, i, b).0, Try(d, i, b).1);
    if a' < a {
      assert Acceptable(walls, packs, found.value.0, found.value.1);
    }
  }

  /**
   * Round `i` adds a pack exactly when one of its 50 tries is acceptable
   * against the walls and the packs placed so far, and then at the first
   * such try; otherwise it changes nothing.
   */
  lemma RoundPlaces(e: Engine, d: SpawnDraws, i: nat)
    ensures NoneAcceptable(Rounds(e, d, i).walls, Rounds(e, d, i).medPacks, d, i) ==> Rounds(e, d, i + 1) == Rounds(e, d, i)
    ensures forall a :: FirstAcceptable(Rounds(e, d, i).walls, Rounds(e, d, i).medPacks, d, i, a) ==>
              Rounds(e, d, i + 1).medPacks
              == Rounds(e, d, i).medPacks + [MedPacks.New(Rounds(e, d, i).nextId, Try(d, i, a).0, Try(d, i, a).1)]
  {
    var before := Rounds(e, d, i);
    Loops.IterateLast(e, 0, i, Placing(d));
    assert Rounds(e, d, i + 1) == PlaceOne(before, d, i);
    forall a | FirstAcceptable(before.walls, before.medPacks, d, i, a)
      ensures Rounds(e, d, i + 1).medPacks
              == before.medPacks + [MedPacks.New(before.nextId, Try(d, i, a).0, Try(d, i, a).1)]
    {
      FirstAcceptableFound(before.walls, before.medPacks, d, i, a);
      PlaceOneAdds(before, d, i);
    }
    PlaceOneAdds(before, d, i);
  }

  /**
   * What placing packs may do: add packs after the ones already there, each
   * new one active and not yet pulsing, at most one per attempted pack.
   */
  predicate Extended(e: Engine, r: Engine, attempted: nat) {
    && r == e.(medPacks := r.medPacks, all := r.all, nextId := r.nextId)
    && |e.medPacks| <= |r.medPacks| <= |e.medPacks| + attempted
    && r.medPacks[..|e.medPacks|] == e.medPacks
    && forall j :: |e.medPacks| <= j < |r.medPacks| ==> r.medPacks[j].active && r.medPacks[j].pulse == 0.0
  }

  /** Placing pack `i` extends what placing the packs before it left. */
  lemma PlaceOneExtends(e: Engine, x: Engine, d: SpawnDraws, i: nat)
    requires Extended(e, x, i)
    ensures Extended(e, PlaceOne(x, d, i), i + 1)
  {
    var r := PlaceOne(x, d, i);
    assert r.medPacks[..|e.medPacks|] == r.medPacks[..|x.medPacks|][..|e.medPacks|];
    assert forall j :: |e.medPacks| <= j < |x.medPacks| ==> r.medPacks[j] == x.medPacks[j];
  }

  /** Placing a pack keeps `allObjects` in step, the identities fresh and the packs well placed. */
  lemma PlaceOneKeepsInvariant(e: Engine, d: SpawnDraws, i: nat)
    ensures Synced(e) ==> Synced(PlaceOne(e, d, i))
    ensures Fresh(e) ==> Fresh(PlaceOne(e, d, i))
    ensures PacksPlaced(e.medPacks, e.walls) ==> PacksPlaced(PlaceOne(e, d, i).medPacks, e.walls)
  {
    var found := FindSpot(e.walls, e.medPacks, d, i, 0);
    if found.Some? {
      AddPackKeeps(e, found.value.0, found.value.1);
      AddedPackIsPlaced(e, found);
    }
  }

  /** A pack added at an acceptable spot inside the area keeps the med packs well placed. */
  lemma AddedPackIsPlaced(e: Engine, found: Option<(real, real)>)
    requires found.Some? ==> Acceptable(e.walls, e.medPacks, found.value.0, found.value.1)
    requires found.Some? ==> SPAWN_MIN <= found.value.0 < SPAWN_MIN + SPAWN_SPAN_X
    requires found.Some? ==> SPAWN_MIN <= found.value.1 < SPAWN_MIN + SPAWN_SPAN_Y
    ensures found.Some? && PacksPlaced(e.medPacks, e.walls) ==>
              PacksPlaced(AddPack(e, found.value.0, found.value.1).medPacks, e.walls)
  {
    if found.Some? && PacksPlaced(e.medPacks, e.walls) {
      var ps := AddPack(e, found.value.0, found.value.1).medPacks;
      assert forall j :: 0 <= j < |e.medPacks| ==> ps[j] == e.medPacks[j];
      assert forall j :: 0 <= j < |e.medPacks| ==> e.medPacks[j] in e.medPacks;
    }
  }

  /** The rounds of one call, each placing one pack. */
  function Placing(d: SpawnDraws): (Engine, nat) -> Engine {
    (x: Engine, i: nat) => PlaceOne(x, d, i)
  }

  /**
   * `respawnMedPacks`: 5 plus the `nextInt(3)` draw packs are attempted, one
   * after another. The first pack lands, under the next identity, at the
   * first of its tries acceptable on the map as it was; when no try of any
   * pack is acceptable on that map, nothing changes.
   */
  function RespawnMedPacks(e: Engine, d: SpawnDraws): (r: Engine)
    ensures Extended(e, r, MIN_PACKS + d.extra)
    ensures forall a :: FirstAcceptable(e.walls, e.medPacks, d, 0, a) ==>
              |e.medPacks| < |r.medPacks|
              && r.medPacks[|e.medPacks|] == MedPacks.New(e.nextId, Try(d, 0, a).0, Try(d, 0, a).1)
    ensures (forall i :: 0 <= i < MIN_PACKS + d.extra ==> NoneAcceptable(e.walls, e.medPacks, d, i)) ==> r == e
  {
    var n := MIN_PACKS + d.extra;
    IterateExtends(e, d, n);
    FirstRoundKept(e, d, n);
    NothingAcceptableKeeps(e, d, n);
    Loops.Iterate(e, 0, n, Placing(d))
  }

  /** Whatever the first round adds stays where it is through the later rounds. */
  lemma FirstRoundKept(e: Engine, d: SpawnDraws, n: nat)
    requires n > 0
    ensures forall a :: FirstAcceptable(e.walls, e.medPacks, d, 0, a) ==>
              var r := Loops.Iterate(e, 0, n, Placing(d));
              |e.medPacks| < |r.medPacks|
              && r.medPacks[|e.medPacks|] == MedPacks.New(e.nextId, Try(d, 0, a).0, Try(d, 0, a).1)
  {
    var first := PlaceOne(e, d, 0);
    var r := Loops.Iterate(e, 0, n, Placing(d));
    assert r == Loops.Iterate(first, 1, n, Placing(d));
    forall x: Engine, i: nat | 1 <= i < n && Extended(first, x, i) ensures Extended(first, Placing(d)(x, i), i + 1) {
      PlaceOneExtends(first, x, d, i);
    }
    assert first.medPacks[..|first.medPacks|] == first.medPacks;
    Loops.IterateKeeps(first, 1, n, Placing(d), (x: Engine, i: nat) => Extended(first, x, i));
    forall a | FirstAcceptable(e.walls, e.medPacks, d, 0, a)
      ensures |e.medPacks| < |r.medPacks|
      ensures r.medPacks[|e.medPacks|] == MedPacks.New(e.nextId, Try(d, 0, a).0, Try(d, 0, a).1)
    {
      FirstAcceptableFound(e.walls, e.medPacks, d, 0, a);
      PlaceOneAdds(e, d, 0);
      assert r.medPacks[|e.medPacks|] == r.medPacks[..|first.medPacks|][|e.medPacks|];
    }
  }

  /** When no try of any round is acceptable on the map as it was, the rounds change nothing. */
  lemma NothingAcceptableKeeps(e: Engine, d: SpawnDraws, n: nat)
    ensures (forall i :: 0 <= i < n ==> NoneAcceptable(e.walls, e.medPacks, d, i)) ==> Loops.Iterate(e, 0, n, Placing(d)) == e
  {
    if forall i :: 0 <= i < n ==> NoneAcceptable(e.walls, e.medPacks, d, i) {
      forall x: Engine, i: nat | 0 <= i < n && x == e ensures Placing(d)(x, i) == e {
        assert NoneAcceptable(e.walls, e.medPacks, d, i);
        assert FindSpot(e.walls, e.medPacks, d, i, 0).None?;
        PlaceOneAdds(e, d, i);
      }
      Loops.IterateKeeps(e, 0, n, Placing(d), (x: Engine, i: nat) => x == e);
    }
  }

  /** The first `n` rounds only extend the packs. */
  lemma IterateExtends(e: Engine, d: SpawnDraws, n: nat)
    ensures Extended(e, Loops.Iterate(e, 0, n, Placing(d)), n)
  {
    forall x: Engine, i: nat | i < n && Extended(e, x, i) ensures Extended(e, Placing(d)(x, i), i + 1) {
      PlaceOneExtends(e, x, d, i);
    }
    assert e.medPacks[..|e.medPacks|] == e.medPacks;
    Loops.IterateKeeps(e, 0, n, Placing(d), (x: Engine, i: nat) => Extended(e, x, i));
  }

  /** Every round of a call keeps `allObjects` in step. */
  lemma RoundsKeepSync(e: Engine, d: SpawnDraws, n: nat)
    requires Synced(e)
    ensures Synced(Rounds(e, d, n))
  {
    forall x: Engine, i: nat | Synced(x) ensures Synced(Placing(d)(x, i)) {
      PlaceOneKeepsInvariant(x, d, i);
    }
    Loops.IterateKeeps(e, 0, n, Placing(d), (x: Engine, i: nat) => Synced(x));
  }

  /** `respawnMedPacks` keeps `allObjects` in step. */
  lemma RespawnKeepsSync(e: Engine, d: SpawnDraws)
    requires Synced(e)
    ensures Synced(RespawnMedPacks(e, d))
  {
    RoundsKeepSync(e, d, MIN_PACKS + d.extra);
    assert RespawnMedPacks(e, d) == Rounds(e, d, MIN_PACKS + d.extra);
  }

  /** `respawnMedPacks` keeps the identities fresh. */
  lemma RespawnKeepsFresh(e: Engine, d: SpawnDraws)
    requires Fresh(e)
    ensures Fresh(RespawnMedPacks(e, d))
  {
    forall x: Engine, i: nat | Fresh(x) ensures Fresh(Placing(d)(x, i)) {
      PlaceOneKeepsInvariant(x, d, i);
    }
    Loops.IterateKeeps(e, 0, MIN_PACKS + d.extra, Placing(d), (x: Engine, i: nat) => Fresh(x));
  }

  /** `respawnMedPacks` keeps the packs well placed. */
  lemma RespawnKeepsPlaced(e: Engine, d: SpawnDraws)
    requires PacksPlaced(e.medPacks, e.walls)
    ensures PacksPlaced(RespawnMedPacks(e, d).medPacks, e.walls)
  {
    forall x: Engine, i: nat | PacksPlaced(x.medPacks, x.walls) && x.walls == e.walls
      ensures PacksPlaced(Placing(d)(x, i).medPacks, e.walls) && Placing(d)(x, i).walls == e.walls
    {
      PlaceOneKeepsInvariant(x, d, i);
    }
    Loops.IterateKeeps(e, 0, MIN_PACKS + d.extra, Placing(d),
                       (x: Engine, i: nat) => PacksPlaced(x.medPacks, x.walls) && x.walls == e.walls);
  }

  /**
   * Into an empty map, the first pack is always placed when any of its 50
   * tries misses every wall: with no pack yet, spacing cannot reject it.
   */
  lemma FirstPackPlaced(e: Engine, d: SpawnDraws, a: nat)
    requires e.medPacks == [] && a < MAX_ATTEMPTS
    requires forall w :: w in e.walls ==> !Intersects(MedPacks.New(0, Try(d, 0, a).0, Try(d, 0, a).1).box, w.box)
    ensures |RespawnMedPacks(e, d).medPacks| >= 1
  {
    var n := MIN_PACKS + d.extra;
    assert Acceptable(e.walls, e.medPacks, Try(d, 0, a).0, Try(d, 0, a).1);
    var next := PlaceOne(e, d, 0);
    assert |next.medPacks| == 1;
    forall x: Engine, i: nat | |x.medPacks| >= 1 ensures |Placing(d)(x, i).medPacks| >= 1 {
    }
    Loops.IterateKeeps(next, 1, n, Placing(d), (x: Engine, i: nat) => |x.medPacks| >= 1);
    assert Loops.Iterate(e, 0, n, Placing(d)) == Loops.Iterate(next, 1, n, Placing(d));
  }
}
