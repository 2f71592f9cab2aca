/**
 * The observer side of the game: the event kinds, what an event carries, and
 * `GameEventManager`, an ordered list of registered listeners to which every
 * notification is delivered in registration order. Listeners are opaque
 * values compared by equality, as the source's list compares them.
 */
module Events {
  import opened Objects
  import Seqs

  /** `TANK_DESTROYED` is declared but never emitted by the engine. */
  datatype GameEvent =
    | TankDestroyed
    | EnemyDestroyed
    | PlayerDestroyed
    | MedPackCollected
    | GameWon
    | GameLost

  /** The `data` argument: the tank or med pack concerned, or nothing (`null`). */
  datatype Data = NoData | TankData(tank: Ref) | MedPackData(pack: nat)

  datatype Notice = Notice(event: GameEvent, data: Data)

  /** One call of `onGameEvent` on one listener. */
  datatype Delivery<L> = Delivery(listener: L, notice: Notice)

  datatype Manager<L> = Manager(listeners: seq<L>)

  /** The constructor: nobody is listening. */
  function NewManager<L>(): (m: Manager<L>)
    ensures |m.listeners| == 0
  {
    Manager([])
  }

  /** `addListener`: registers `l` once more, after everyone already registered. */
  function AddListener<L>(m: Manager<L>, l: L): (r: Manager<L>)
    ensures |r.listeners| == |m.listeners| + 1 && r.listeners[|m.listeners|] == l
    ensures r.listeners[..|m.listeners|] == m.listeners
  {
    Manager(m.listeners + [l])
  }

  /**
   * `removeListener`: withdraws the earliest registration of `l`, if any; the
   * other registrations keep their order.
   */
  function RemoveListener<L(==)>(m: Manager<L>, l: L): (r: Manager<L>)
    ensures l !in m.listeners ==> r == m
    ensures l in m.listeners ==> |r.listeners| == |m.listeners| - 1
    ensures l in m.listeners ==>
              var i := Seqs.IndexOf(m.listeners, l);
              r.listeners[..i] == m.listeners[..i] && r.listeners[i..] == m.listeners[i + 1..]
    ensures multiset(r.listeners) == multiset(m.listeners) - multiset{l}
  {
    Manager(Seqs.RemoveFirst(m.listeners, l))
  }

  /**
   * `notifyListeners`: one delivery of the notice per registration, in
   * registration order; a listener registered twice hears it twice.
   */
  function Notify<L>(m: Manager<L>, n: Notice): (ds: seq<Delivery<L>>)
    ensures |ds| == |m.listeners|
    ensures forall i :: 0 <= i < |ds| ==> ds[i] == Delivery(m.listeners[i], n)
    decreases |m.listeners|
  {
    if m.listeners == [] then []
    else [Delivery(m.listeners[0], n)] + Notify(Manager(m.listeners[1..]), n)
  }

  /** Registering a listener that was not registered and withdrawing it again restores the manager. */
  lemma {:induction false} RemoveUndoesAdd<L>(m: Manager<L>, l: L)
    requires l !in m.listeners
    ensures RemoveListener(AddListener(m, l), l) == m
  {
    Seqs.RemoveFirstAfterAppend(m.listeners, l);
  }

  /** A listener hears a notice exactly as many times as it is registered. */
  lemma {:induction false} DeliveriesMatchRegistrations<L>(m: Manager<L>, n: Notice, l: L)
    ensures multiset(Notify(m, n))[Delivery(l, n)] == multiset(m.listeners)[l]
    decreases |m.listeners|
  {
    if m.listeners != [] {
      var tail := Manager(m.listeners[1..]);
      DeliveriesMatchRegistrations(tail, n, l);
      assert Notify(m, n) == [Delivery(m.listeners[0], n)] + Notify(tail, n);
      assert m.listeners == [m.listeners[0]] + tail.listeners;
    }
  }
}
