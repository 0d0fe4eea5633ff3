/** The sliding window that spaces request starts to one host. */
module RateWindow {

  /** The recorded starts still inside the window, and every start ever granted. Times are milliseconds. */
  datatype Window = Window(starts: seq<real>, grants: seq<real>)

  const FRESH := Window([], [])

  predicate Sorted(times: seq<real>) {
    forall i, j :: 0 <= i < j < |times| ==> times[i] <= times[j]
  }

  /** Drops the starts at or before `horizon`. */
  function Prune(starts: seq<real>, horizon: real): seq<real> {
    if starts != [] && starts[0] <= horizon then Prune(starts[1..], horizon) else starts
  }

  predicate Grants(w: Window, limit: nat, windowMs: real, t: real) {
    |Prune(w.starts, t - windowMs)| < limit
  }

  /** One pass of the loop in `take` at clock reading `t`. */
  function Polled(w: Window, limit: nat, windowMs: real, t: real): Window {
    var kept := Prune(w.starts, t - windowMs);
    if |kept| < limit then Window(kept + [t], w.grants + [t]) else w.(starts := kept)
  }

  /** How long a caller who was not granted is told to wait. */
  function Asked(w: Window, limit: nat, windowMs: real, t: real): real
    requires limit >= 1 && !Grants(w, limit, windowMs, t)
  {
    Prune(w.starts, t - windowMs)[0] + windowMs - t + 1.0
  }

  /** `limit` grants apart is at least a window apart. */
  ghost predicate Spaced(grants: seq<real>, limit: nat, windowMs: real) {
    forall i :: 0 <= i && i + limit < |grants| ==> grants[i + limit] - grants[i] >= windowMs
  }

  /** The starts are the last of the grants. */
  ghost predicate Latest(w: Window) {
    && |w.starts| <= |w.grants|
    && forall i :: 0 <= i < |w.starts| ==> w.starts[i] == w.grants[|w.grants| - |w.starts| + i]
  }

  /** Every grant the window has dropped is a full window old. */
  ghost predicate DroppedAreOld(w: Window, windowMs: real, now: real) {
    forall i :: 0 <= i < |w.grants| - |w.starts| ==> w.grants[i] <= now - windowMs
  }

  ghost predicate NotAfter(times: seq<real>, now: real) {
    forall i :: 0 <= i < |times| ==> times[i] <= now
  }

  /** The window's invariant at clock reading `now`. */
  ghost predicate Sound(w: Window, limit: nat, windowMs: real, now: real)
  {
    && Latest(w)
    && |w.starts| <= limit
    && DroppedAreOld(w, windowMs, now)
    && NotAfter(w.grants, now)
    && Sorted(w.grants)
    && Spaced(w.grants, limit, windowMs)
  }

  lemma Later(w: Window, limit: nat, windowMs: real, now: real, then': real)
    requires Sound(w, limit, windowMs, now) && now <= then'
    ensures Sound(w, limit, windowMs, then')
  {
  }

  /** Pruning drops a prefix: when the starts are in order, exactly those at or before the horizon. */
  lemma {:induction false} PruneDrops(starts: seq<real>, horizon: real) returns (n: nat)
    ensures n <= |starts| && Prune(starts, horizon) == starts[n..]
    ensures forall i :: 0 <= i < n ==> starts[i] <= horizon
    ensures n < |starts| ==> starts[n] > horizon
  {
    if starts != [] && starts[0] <= horizon {
      n := PruneDrops(starts[1..], horizon);
      assert starts[1..][n..] == starts[n + 1..];
      n := n + 1;
    } else {
      n := 0;
    }
  }

  lemma ShiftKeepsSound(w: Window, limit: nat, windowMs: real, t: real)
    requires Sound(w, limit, windowMs, t)
    ensures Sound(w.(starts := Prune(w.starts, t - windowMs)), limit, windowMs, t)
  {
    var n := PruneDrops(w.starts, t - windowMs);
    var base := |w.grants| - |w.starts|;
    forall i | base <= i < base + n ensures w.grants[i] <= t - windowMs {
      assert w.grants[i] == w.starts[i - base];
    }
  }

  lemma GrantKeepsSpaced(w: Window, limit: nat, windowMs: real, t: real)
    requires Sound(w, limit, windowMs, t) && |w.starts| < limit
    ensures Spaced(w.grants + [t], limit, windowMs)
  {
    var grants := w.grants + [t];
    forall i | 0 <= i && i + limit < |grants| ensures grants[i + limit] - grants[i] >= windowMs {
      if i + limit < |w.grants| {
        assert w.grants[i + limit] - w.grants[i] >= windowMs;
      } else {
        assert grants[i] == w.grants[i] && i < |w.grants| - |w.starts|;
      }
    }
  }

  lemma PushKeepsLatest(w: Window, t: real)
    requires Latest(w)
    ensures Latest(Window(w.starts + [t], w.grants + [t]))
  {
  }

  lemma GrantKeepsSound(w: Window, limit: nat, windowMs: real, t: real)
    requires Sound(w, limit, windowMs, t) && |w.starts| < limit
    ensures Sound(Window(w.starts + [t], w.grants + [t]), limit, windowMs, t)
  {
    PushKeepsLatest(w, t);
    GrantKeepsSpaced(w, limit, windowMs, t);
    assert DroppedAreOld(Window(w.starts + [t], w.grants + [t]), windowMs, t);
  }

  lemma PolledKeepsSound(w: Window, limit: nat, windowMs: real, t: real)
    requires Sound(w, limit, windowMs, t)
    ensures Sound(Polled(w, limit, windowMs, t), limit, windowMs, t)
  {
    var kept := w.(starts := Prune(w.starts, t - windowMs));
    ShiftKeepsSound(w, limit, windowMs, t);
    if |kept.starts| < limit {
      GrantKeepsSound(kept, limit, windowMs, t);
    }
  }

  /** With a limit of at least 1, a caller who waits as long as asked is granted on its next reading. */
  lemma WaitsAtMostOnce(w: Window, limit: nat, windowMs: real, t: real, later: real)
    requires limit >= 1 && windowMs >= 0.0 && Sound(w, limit, windowMs, t) && !Grants(w, limit, windowMs, t)
    requires later >= t + Asked(w, limit, windowMs, t)
    ensures Asked(w, limit, windowMs, t) > 1.0
    ensures Grants(Polled(w, limit, windowMs, t), limit, windowMs, later)
  {
    var kept := Prune(w.starts, t - windowMs);
    var n := PruneDrops(w.starts, t - windowMs);
    assert kept[0] == w.starts[n];
    ShiftKeepsSound(w, limit, windowMs, t);
    var m := PruneDrops(kept, later - windowMs);
  }

  /**
   * A caller is granted exactly when there were fewer grants than the limit, or
   * as many grants back as the limit is a full window ago; a refused one is
   * asked to wait until it is, and a millisecond.
   */
  lemma GrantedWhenOld(w: Window, limit: nat, windowMs: real, t: real)
    requires limit >= 1 && Sound(w, limit, windowMs, t)
    ensures Grants(w, limit, windowMs, t) <==> |w.grants| < limit || w.grants[|w.grants| - limit] <= t - windowMs
    ensures !Grants(w, limit, windowMs, t) ==> Asked(w, limit, windowMs, t) == w.grants[|w.grants| - limit] + windowMs - t + 1.0
  {
    var n := PruneDrops(w.starts, t - windowMs);
    var first := |w.grants| - |w.starts|;
    if |w.grants| >= limit {
      var i := |w.grants| - limit;
      assert i >= first ==> w.grants[i] == w.starts[i - first];
      assert n < |w.starts| ==> w.starts[n] == w.grants[first + n];
    }
  }

  /** The starts granted inside `[from, from + windowMs)`, by position. */
  ghost function Inside(grants: seq<real>, windowMs: real, from: real): set<int> {
    set i | 0 <= i < |grants| && from <= grants[i] < from + windowMs
  }

  lemma {:induction false} RangeSize(s: set<int>, low: int, size: nat)
    requires forall i :: i in s ==> low <= i < low + size
    ensures |s| <= size
    decreases size
  {
    if size == 0 {
      assert s == {};
    } else {
      RangeSize(s - {low}, low + 1, size - 1);
      if low in s {
        assert |s| == |s - {low}| + 1;
      } else {
        assert s - {low} == s;
      }
    }
  }

  lemma {:induction false} FirstFrom(grants: seq<real>, from: real) returns (low: nat)
    requires Sorted(grants)
    ensures low <= |grants| && forall i :: 0 <= i < |grants| ==> (grants[i] < from <==> i < low)
  {
    if grants == [] || grants[0] >= from {
      low := 0;
    } else {
      low := FirstFrom(grants[1..], from);
      low := low + 1;
      assert forall i :: 1 <= i < |grants| ==> grants[i] == grants[1..][i - 1];
    }
  }

  /** No half-open window of that length, wherever it starts, holds more than `limit` grants. */
  lemma NoWindowOverfull(grants: seq<real>, limit: nat, windowMs: real, from: real)
    requires Sorted(grants) && Spaced(grants, limit, windowMs)
    ensures |Inside(grants, windowMs, from)| <= limit
  {
    var low := FirstFrom(grants, from);
    forall i | i in Inside(grants, windowMs, from) ensures low <= i < low + limit {
      assert low + limit < |grants| ==> grants[low + limit] - grants[low] >= windowMs;
    }
    RangeSize(Inside(grants, windowMs, from), low, limit);
  }

  /** `readings[from..]` never run backwards, from `now` on. */
  ghost predicate Monotone(now: real, readings: seq<real>, from: nat) {
    && (forall i :: from <= i < |readings| ==> now <= readings[i])
    && (forall i, j :: from <= i < j < |readings| ==> readings[i] <= readings[j])
  }

  /** Each reading after a refusal comes at least as late as the caller was asked to wait. */
  ghost predicate Patient(w: Window, limit: nat, windowMs: real, readings: seq<real>)
    requires limit >= 1
  {
    |readings| >= 2 && !Grants(w, limit, windowMs, readings[0]) ==>
      readings[1] >= readings[0] + Asked(w, limit, windowMs, readings[0])
  }

  /** A poll no earlier than the last keeps the window sound, whatever it starts from. */
  lemma PollFrom(w: Window, limit: nat, windowMs: real, now: real, t: real)
    requires Sound(w, limit, windowMs, now) && now <= t
    ensures Sound(w, limit, windowMs, t) && Sound(Polled(w, limit, windowMs, t), limit, windowMs, t)
  {
    Later(w, limit, windowMs, now, t);
    PolledKeepsSound(w, limit, windowMs, t);
  }

  class RateWindow {
    var starts: seq<real>
    const limit: nat
    const windowMs: real
    ghost var grants: seq<real>
    ghost var now: real

    ghost function View(): Window
      reads this
    {
      Window(starts, grants)
    }

    ghost predicate Valid()
      reads this
    {
      limit >= 1 && windowMs >= 0.0 && Sound(View(), limit, windowMs, now)
    }

    constructor (limit: nat, windowMs: real)
      requires limit >= 1 && windowMs >= 0.0
      ensures Valid() && View() == FRESH && this.limit == limit && this.windowMs == windowMs
    {
      this.limit, this.windowMs := limit, windowMs;
      starts, grants, now := [], [], 0.0;
    }

    /** One pass: shift the starts that have left the window, then take a place if there is one. */
    method Pass(t: real) returns (granted: bool)
      requires Valid() && now <= t
      modifies this
      ensures Valid() && now == t
      ensures View() == Polled(old(View()), limit, windowMs, t)
      ensures granted == Grants(old(View()), limit, windowMs, t)
      ensures Sound(old(View()), limit, windowMs, t)
    {
      PollFrom(View(), limit, windowMs, now, t);
      while starts != [] && starts[0] <= t - windowMs
        invariant Prune(starts, t - windowMs) == Prune(old(starts), t - windowMs)
        invariant grants == old(grants)
        decreases |starts|
      {
        starts := starts[1..];
      }
      now := t;
      granted := |starts| < limit;
      if granted {
        starts := starts + [t];
        grants := grants + [t];
      }
    }

    /**
     * The loop of `take`, over the clock readings it makes: one per pass, each
     * after the wait the pass before it asked for. Stops at the grant, or when
     * the readings run out.
     */
    method Take(readings: seq<real>) returns (granted: bool, used: nat)
      requires Valid() && Monotone(now, readings, 0)
      modifies this
      ensures Valid() && used <= |readings| && now >= old(now)
      ensures granted ==> used > 0 && grants == old(grants) + [readings[used - 1]]
      ensures !granted ==> used == |readings| && grants == old(grants)
      ensures Patient(old(View()), limit, windowMs, readings) && |readings| >= 2 ==> granted && used <= 2
    {
      used, granted := 0, false;
      ghost var first := View();
      while used < |readings| && !granted
        invariant used <= |readings| && Valid() && now >= old(now)
        invariant Monotone(now, readings, used)
        invariant if granted then used > 0 && grants == old(grants) + [readings[used - 1]] else grants == old(grants)
        invariant used == 0 ==> View() == first
        invariant used == 1 && !granted ==> Refused(first, readings, limit, windowMs) && View() == Polled(first, limit, windowMs, readings[0])
        invariant used >= 2 ==> !Patient(first, limit, windowMs, readings) || (granted && used == 2)
        decreases |readings| - used, !granted
      {
        ghost var before := View();
        if used == 1 && Patient(first, limit, windowMs, readings) {
          WaitsAtMostOnce(first, limit, windowMs, readings[0], readings[1]);
        }
        granted := Pass(readings[used]);
        used := used + 1;
      }
    }
  }

  ghost predicate Refused(w: Window, readings: seq<real>, limit: nat, windowMs: real) {
    |readings| >= 1 && Sound(w, limit, windowMs, readings[0]) && !Grants(w, limit, windowMs, readings[0])
  }
}
