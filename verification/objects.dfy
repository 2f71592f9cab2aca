/**
 * What generic code sees of any `GameObject`: which object it is, its box,
 * its active flag and whether it is solid. `Ref` stands for Java object
 * identity: the current player tank, an enemy or wall by its (never changing)
 * list position, or a missile, med pack or explosion by the id it was created
 * with.
 */
module Objects {
  import opened Geometry

  datatype Ref =
    | PlayerRef
    | EnemyRef(index: nat)
    | WallRef(index: nat)
    | MissileRef(id: nat)
    | MedPackRef(id: nat)
    | ExplosionRef(id: nat)

  /** The `GameObject` view of an object. */
  datatype Body = Body(ref: Ref, box: Box, active: bool, solid: bool)

  /**
   * Obstacle `o` stops the object `self` from occupying `cand`: it is another
   * object, active, solid and overlapping.
   */
  predicate Obstructs(o: Body, self: Ref, cand: Box) {
    o.ref != self && o.active && o.solid && Intersects(cand, o.box)
  }

  /**
   * The obstacle scan of `Tank.move`: walks the list in order and stops at the
   * first obstruction; returns its position, or `|obstacles|` when there is none.
   */
  function FirstObstruction(obstacles: seq<Body>, self: Ref, cand: Box): (i: nat)
    ensures i <= |obstacles|
    ensures i < |obstacles| ==> Obstructs(obstacles[i], self, cand)
    ensures forall j :: 0 <= j < i ==> !Obstructs(obstacles[j], self, cand)
  {
    if obstacles == [] then 0
    else if Obstructs(obstacles[0], self, cand) then 0
    else 1 + FirstObstruction(obstacles[1..], self, cand)
  }

  /** Some obstacle obstructs `cand`. */
  predicate Blocked(obstacles: seq<Body>, self: Ref, cand: Box) {
    FirstObstruction(obstacles, self, cand) < |obstacles|
  }

  /** The scan finds an obstruction exactly when one exists. */
  lemma BlockedIffSomeObstruction(obstacles: seq<Body>, self: Ref, cand: Box)
    ensures Blocked(obstacles, self, cand) <==> exists o :: o in obstacles && Obstructs(o, self, cand)
  {
    if !Blocked(obstacles, self, cand) {
      forall o | o in obstacles ensures !Obstructs(o, self, cand) {
        var j :| 0 <= j < |obstacles| && obstacles[j] == o;
      }
    }
  }

  /** The object itself never obstructs its own move, wherever it appears in the list. */
  lemma {:induction false} SelfNeverObstructs(before: seq<Body>, me: Body, after: seq<Body>, cand: Box)
    ensures Blocked(before + [me] + after, me.ref, cand) <==> Blocked(before + after, me.ref, cand)
  {
    BlockedIffSomeObstruction(before + [me] + after, me.ref, cand);
    BlockedIffSomeObstruction(before + after, me.ref, cand);
    assert forall o :: o in before + [me] + after && o != me ==> o in before + after;
    assert forall o :: o in before + after ==> o in before + [me] + after;
  }
}
