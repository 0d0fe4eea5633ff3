/** The FIFO counting semaphore each client queues its requests behind. */
module Semaphore {
  import opened Wrappers

  /**
   * A semaphore together with its history: who asked, in order, and who was
   * let in, in order. `active` counts slots given out; `waiting` holds callers
   * parked until a slot is handed to them.
   */
  datatype Lane = Lane(active: nat, waiting: seq<nat>, arrivals: seq<nat>, served: seq<nat>)

  const IDLE := Lane(0, [], [], [])

  /** Slots never exceed `max`, callers wait only when none is free, and nobody overtakes. */
  predicate Orderly(lane: Lane, max: nat) {
    lane.active <= max && (lane.waiting != [] ==> lane.active == max) && lane.arrivals == lane.served + lane.waiting
  }

  /** True when the caller passes without waiting. */
  predicate Free(lane: Lane, max: nat) {
    lane.active < max
  }

  function Acquired(lane: Lane, max: nat, caller: nat): Lane {
    if Free(lane, max)
    then lane.(active := lane.active + 1, arrivals := lane.arrivals + [caller], served := lane.served + [caller])
    else lane.(waiting := lane.waiting + [caller], arrivals := lane.arrivals + [caller])
  }

  /** The waiter a release hands its slot to. */
  function Next(lane: Lane): Option<nat> {
    if lane.waiting == [] then None else Some(lane.waiting[0])
  }

  function Released(lane: Lane): Lane
    requires lane.active > 0
  {
    match Next(lane)
    case None => lane.(active := lane.active - 1)
    case Some(next) => lane.(waiting := lane.waiting[1..], served := lane.served + [next])
  }

  lemma AcquireKeepsOrder(lane: Lane, max: nat, caller: nat)
    requires Orderly(lane, max)
    ensures Orderly(Acquired(lane, max, caller), max)
    ensures Acquired(lane, max, caller).arrivals == lane.arrivals + [caller]
  {
    assert lane.served + lane.waiting + [caller] == lane.served + (lane.waiting + [caller]);
  }

  /** A release with waiters keeps every slot taken: the slot passes to the head waiter and is never free in between. */
  lemma ReleaseKeepsOrder(lane: Lane, max: nat)
    requires Orderly(lane, max) && lane.active > 0
    ensures Orderly(Released(lane), max) && Released(lane).arrivals == lane.arrivals
    ensures lane.waiting != [] ==> Released(lane).active == max && Released(lane).served == lane.served + [lane.waiting[0]]
    ensures lane.waiting == [] ==> Released(lane).active == lane.active - 1
  {
    if lane.waiting != [] {
      assert lane.served + lane.waiting == lane.served + [lane.waiting[0]] + lane.waiting[1..];
    }
  }

  class Limiter {
    var active: nat
    var waiting: seq<nat>
    const max: nat
    ghost var arrivals: seq<nat>
    ghost var served: seq<nat>

    ghost function View(): Lane
      reads this
    {
      Lane(active, waiting, arrivals, served)
    }

    ghost predicate Valid()
      reads this
    {
      Orderly(View(), max)
    }

    constructor (max: nat)
      ensures Valid() && this.max == max && View() == IDLE
    {
      this.max := max;
      active, waiting, arrivals, served := 0, [], [], [];
    }

    /** `granted` is false when the caller has to wait for `Release` to name it. */
    method Acquire(caller: nat) returns (granted: bool)
      requires Valid()
      modifies this
      ensures Valid() && View() == Acquired(old(View()), max, caller)
      ensures granted == Free(old(View()), max)
      ensures granted <==> served == old(served) + [caller]
    {
      AcquireKeepsOrder(View(), max, caller);
      arrivals := arrivals + [caller];
      if active < max {
        active := active + 1;
        served := served + [caller];
        return true;
      }
      waiting := waiting + [caller];
      granted := false;
    }

    /** With a queue the slot changes hands; without one it is free again. */
    method Release() returns (next: Option<nat>)
      requires Valid() && active > 0
      modifies this
      ensures Valid() && View() == Released(old(View()))
      ensures next == Next(old(View()))
    {
      ReleaseKeepsOrder(View(), max);
      if waiting == [] {
        next := None;
        active := active - 1;
      } else {
        next := Some(waiting[0]);
        served := served + [waiting[0]];
        waiting := waiting[1..];
      }
    }
  }
}
