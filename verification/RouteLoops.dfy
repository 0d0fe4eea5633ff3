/**
 * Runs of hops that end on the coin they began with. The scan for them takes
 * the shortest run from each hop and goes on behind it; its result is
 * described without the scan, and the description is shown to fit no other.
 */
module RouteLoops {
  import opened Wrappers

  /** A hop: one swap, by the action and command it belongs to. */
  datatype Hop = Hop(action: nat, command: nat, path: int, coinIn: string, coinOut: string, routeCoins: Option<(string, string)>)

  datatype RouteLoop = RouteLoop(hops: seq<Hop>, wholeTrade: bool)

  /** The positions of a loop's first and last hop. */
  datatype Span = Span(first: nat, last: nat)

  /** Hops `i` to `j` stay in one path, and each takes in the coin the one before it gave out. */
  predicate Chained(hops: seq<Hop>, i: nat, j: nat) {
    && i <= j < |hops|
    && (forall k :: i <= k <= j ==> hops[k].path == hops[i].path)
    && (forall k :: i < k <= j ==> hops[k].coinIn == hops[k - 1].coinOut)
  }

  /** A chained run that gives back the coin it took in. */
  predicate Closes(hops: seq<Hop>, i: nat, j: nat) {
    Chained(hops, i, j) && hops[j].coinOut == hops[i].coinIn
  }

  /** The shortest closing run from its first hop. */
  predicate Shortest(hops: seq<Hop>, s: Span) {
    Closes(hops, s.first, s.last) && forall j :: s.first <= j < s.last ==> !Closes(hops, s.first, j)
  }

  predicate Covers(spans: seq<Span>, i: nat) {
    exists n :: 0 <= n < |spans| && spans[n].first <= i <= spans[n].last
  }

  /**
   * The round trips of `hops` from position `from` to position `to`: in order,
   * pairwise disjoint, each the shortest from its first hop, and every closing
   * run that starts there starts inside one of them.
   */
  ghost predicate RoundTrips(hops: seq<Hop>, spans: seq<Span>, from: nat, to: nat) {
    EachShortest(hops, spans, from, to) && Disjoint(spans) && StartsCovered(hops, spans, from, to)
  }

  ghost predicate EachShortest(hops: seq<Hop>, spans: seq<Span>, from: nat, to: nat) {
    forall n :: 0 <= n < |spans| ==> from <= spans[n].first <= spans[n].last < to && Shortest(hops, spans[n])
  }

  /** Each span ends before the next begins. */
  predicate Disjoint(spans: seq<Span>) {
    forall n, m :: 0 <= n < m < |spans| ==> spans[n].last < spans[m].first
  }

  /** Every closing run that starts between the two positions starts inside one of the spans. */
  ghost predicate StartsCovered(hops: seq<Hop>, spans: seq<Span>, from: nat, to: nat) {
    forall i: nat, j: nat :: from <= i < to && Closes(hops, i, j) ==> Covers(spans, i)
  }

  function CountPath(hops: seq<Hop>, path: int): nat {
    if hops == [] then 0 else (if hops[0].path == path then 1 else 0) + CountPath(hops[1..], path)
  }

  /** The loop is all its path's hops, and the route declares its coin at both ends. */
  predicate WholeTrade(hops: seq<Hop>, s: Span)
    requires s.first <= s.last < |hops|
  {
    var route := hops[s.first].routeCoins;
    && (forall k :: 0 <= k < |hops| && hops[k].path == hops[s.first].path ==> s.first <= k <= s.last)
    && route == Some((hops[s.first].coinIn, hops[s.first].coinIn))
  }

  ghost predicate IsLoop(hops: seq<Hop>, s: Span, loop: RouteLoop) {
    s.first <= s.last < |hops| && loop.hops == hops[s.first..s.last + 1] && (loop.wholeTrade <==> WholeTrade(hops, s))
  }

  lemma {:induction false} CountAppend(a: seq<Hop>, b: seq<Hop>, path: int)
    ensures CountPath(a + b, path) == CountPath(a, path) + CountPath(b, path)
  {
    if a == [] {
      assert a + b == b;
    } else {
      assert (a + b)[1..] == a[1..] + b;
      CountAppend(a[1..], b, path);
    }
  }

  lemma {:induction false} CountAll(hops: seq<Hop>, path: int)
    requires forall k :: 0 <= k < |hops| ==> hops[k].path == path
    ensures CountPath(hops, path) == |hops|
  {
    if hops != [] { CountAll(hops[1..], path); }
  }

  lemma {:induction false} CountNone(hops: seq<Hop>, path: int)
    ensures CountPath(hops, path) == 0 <==> forall k :: 0 <= k < |hops| ==> hops[k].path != path
  {
    if hops != [] {
      CountNone(hops[1..], path);
      assert forall k :: 1 <= k < |hops| ==> hops[k] == hops[1..][k - 1];
    }
  }

  lemma CountParts(hops: seq<Hop>, s: Span, path: int)
    requires s.first <= s.last < |hops|
    ensures CountPath(hops, path)
            == CountPath(hops[..s.first], path) + CountPath(hops[s.first..s.last + 1], path) + CountPath(hops[s.last + 1..], path)
  {
    var before, run, after := hops[..s.first], hops[s.first..s.last + 1], hops[s.last + 1..];
    assert hops == before + run + after;
    CountAppend(before + run, after, path);
    CountAppend(before, run, path);
  }

  /** A run inside one path is as long as its path's hops exactly when it is all of them. */
  lemma CountIsLength(hops: seq<Hop>, s: Span)
    requires Chained(hops, s.first, s.last)
    ensures s.last + 1 - s.first == CountPath(hops, hops[s.first].path)
            <==> forall k :: 0 <= k < |hops| && hops[k].path == hops[s.first].path ==> s.first <= k <= s.last
  {
    var path := hops[s.first].path;
    var before, after := hops[..s.first], hops[s.last + 1..];
    CountParts(hops, s, path);
    CountAll(hops[s.first..s.last + 1], path);
    CountNone(before, path);
    CountNone(after, path);
    assert forall k :: 0 <= k < s.first ==> hops[k] == before[k];
    assert forall k :: s.last < k < |hops| ==> hops[k] == after[k - s.last - 1];
  }

  /** The inner loop: the shortest closing run from hop `i`, if it has one. */
  method ClosingHop(hops: seq<Hop>, i: nat) returns (end: int)
    requires i < |hops|
    ensures end >= 0 ==> i <= end && Shortest(hops, Span(i, end))
    ensures end < 0 ==> forall j: nat :: !Closes(hops, i, j)
  {
    var j := i;
    while j < |hops| && hops[j].path == hops[i].path
      invariant i <= j <= |hops|
      invariant j > i ==> Chained(hops, i, j - 1)
      invariant forall k :: i <= k < j ==> !Closes(hops, i, k)
    {
      if j > i && hops[j].coinIn != hops[j - 1].coinOut {
        return -1;
      }
      assert Chained(hops, i, j);
      if hops[j].coinOut == hops[i].coinIn {
        return j;
      }
      j := j + 1;
    }
    end := -1;
  }

  lemma CoversMore(spans: seq<Span>, s: Span, i: nat)
    requires Covers(spans, i) || s.first <= i <= s.last
    ensures Covers(spans + [s], i)
  {
    if Covers(spans, i) {
      var n :| 0 <= n < |spans| && spans[n].first <= i <= spans[n].last;
      assert (spans + [s])[n] == spans[n];
    } else {
      assert (spans + [s])[|spans|] == s;
    }
  }

  lemma AddSpan(hops: seq<Hop>, spans: seq<Span>, to: nat, s: Span)
    requires RoundTrips(hops, spans, 0, to) && s.first == to && Shortest(hops, s)
    ensures RoundTrips(hops, spans + [s], 0, s.last + 1)
  {
    AddStarts(hops, spans, to, s);
    AddShortest(hops, spans, to, s);
    AddDisjoint(hops, spans, to, s);
  }

  lemma AddShortest(hops: seq<Hop>, spans: seq<Span>, to: nat, s: Span)
    requires EachShortest(hops, spans, 0, to) && s.first == to && Shortest(hops, s)
    ensures EachShortest(hops, spans + [s], 0, s.last + 1)
  {
  }

  lemma AddDisjoint(hops: seq<Hop>, spans: seq<Span>, to: nat, s: Span)
    requires EachShortest(hops, spans, 0, to) && Disjoint(spans) && s.first == to
    ensures Disjoint(spans + [s])
  {
  }

  lemma AddStarts(hops: seq<Hop>, spans: seq<Span>, to: nat, s: Span)
    requires StartsCovered(hops, spans, 0, to) && s.first == to
    ensures StartsCovered(hops, spans + [s], 0, s.last + 1)
  {
    forall i: nat, j: nat | i < s.last + 1 && Closes(hops, i, j) ensures Covers(spans + [s], i) {
      CoversMore(spans, s, i);
    }
  }

  lemma SkipHop(hops: seq<Hop>, spans: seq<Span>, to: nat)
    requires RoundTrips(hops, spans, 0, to) && forall j: nat :: !Closes(hops, to, j)
    ensures RoundTrips(hops, spans, 0, to + 1)
  {
  }

  method LoopAt(hops: seq<Hop>, s: Span) returns (loop: RouteLoop)
    requires Chained(hops, s.first, s.last)
    ensures IsLoop(hops, s, loop)
  {
    var run := hops[s.first..s.last + 1];
    var coin, route := run[0].coinIn, run[0].routeCoins;
    CountIsLength(hops, s);
    loop := RouteLoop(run, |run| == CountPath(hops, run[0].path) && route.Some? && route.value.0 == coin && route.value.1 == coin);
  }

  ghost predicate AreLoops(hops: seq<Hop>, spans: seq<Span>, loops: seq<RouteLoop>) {
    |loops| == |spans| && forall n :: 0 <= n < |loops| ==> IsLoop(hops, spans[n], loops[n])
  }

  /** The loop so far: the round trips of the hops before `i`, as spans and as loops. */
  ghost predicate Done(hops: seq<Hop>, spans: seq<Span>, loops: seq<RouteLoop>, i: nat) {
    i <= |hops| && RoundTrips(hops, spans, 0, i) && AreLoops(hops, spans, loops)
  }

  lemma DoneNone(hops: seq<Hop>, spans: seq<Span>, loops: seq<RouteLoop>, i: nat)
    requires Done(hops, spans, loops, i) && i < |hops| && forall j: nat :: !Closes(hops, i, j)
    ensures Done(hops, spans, loops, i + 1)
  {
    SkipHop(hops, spans, i);
  }

  lemma DoneOne(hops: seq<Hop>, spans: seq<Span>, loops: seq<RouteLoop>, s: Span, loop: RouteLoop)
    requires Done(hops, spans, loops, s.first) && Shortest(hops, s) && IsLoop(hops, s, loop)
    ensures Done(hops, spans + [s], loops + [loop], s.last + 1)
  {
    AddSpan(hops, spans, s.first, s);
  }

  /** The loops are the round trips of `hops`, in order. */
  ghost predicate AreRoundTrips(hops: seq<Hop>, loops: seq<RouteLoop>) {
    exists spans :: RoundTrips(hops, spans, 0, |hops|) && AreLoops(hops, spans, loops)
  }

  method RouteLoopsOf(hops: seq<Hop>) returns (loops: seq<RouteLoop>)
    ensures AreRoundTrips(hops, loops)
  {
    loops := [];
    ghost var spans: seq<Span> := [];
    var i := 0;
    while i < |hops|
      invariant i <= |hops| && Done(hops, spans, loops, i)
      decreases |hops| - i
    {
      var end := ClosingHop(hops, i);
      if end < 0 {
        DoneNone(hops, spans, loops, i);
        i := i + 1;
      } else {
        var loop := LoopAt(hops, Span(i, end));
        DoneOne(hops, spans, loops, Span(i, end), loop);
        loops := loops + [loop];
        spans := spans + [Span(i, end)];
        i := end + 1;
      }
    }
  }

  /** Only one list of loops is the round trips of the hops. */
  lemma {:induction false} LoopsUnique(hops: seq<Hop>, a: seq<RouteLoop>, b: seq<RouteLoop>)
    requires AreRoundTrips(hops, a) && AreRoundTrips(hops, b)
    ensures a == b
  {
    var s :| RoundTrips(hops, s, 0, |hops|) && AreLoops(hops, s, a);
    var t :| RoundTrips(hops, t, 0, |hops|) && AreLoops(hops, t, b);
    RoundTripsUnique(hops, s, t, 0);
    SameLoops(hops, s, a, b);
  }

  lemma {:induction false} SameLoops(hops: seq<Hop>, spans: seq<Span>, a: seq<RouteLoop>, b: seq<RouteLoop>)
    requires AreLoops(hops, spans, a) && AreLoops(hops, spans, b)
    ensures a == b
  {
    forall n | 0 <= n < |a| ensures a[n] == b[n] {
      assert IsLoop(hops, spans[n], a[n]) && IsLoop(hops, spans[n], b[n]);
    }
  }

  /** There is one list of round trips: the description leaves nothing open. */
  lemma {:induction false} RoundTripsUnique(hops: seq<Hop>, a: seq<Span>, b: seq<Span>, from: nat)
    requires RoundTrips(hops, a, from, |hops|) && RoundTrips(hops, b, from, |hops|)
    ensures a == b
    decreases |a| + |b|
  {
    if a == [] {
      if b != [] { BothOrNeither(hops, b, a, from); }
    } else {
      BothOrNeither(hops, a, b, from);
      FirstEqual(hops, a, b, from);
      DropFirst(hops, a, from);
      DropFirst(hops, b, from);
      RoundTripsUnique(hops, a[1..], b[1..], a[0].last + 1);
      Reassemble(a);
      Reassemble(b);
    }
  }

  lemma Reassemble(spans: seq<Span>)
    requires spans != []
    ensures spans == [spans[0]] + spans[1..]
  {
  }

  lemma FirstEqual(hops: seq<Hop>, a: seq<Span>, b: seq<Span>, from: nat)
    requires a != [] && b != [] && RoundTrips(hops, a, from, |hops|) && RoundTrips(hops, b, from, |hops|)
    ensures a[0] == b[0]
  {
    SameFirst(hops, a, b, from);
    SameFirst(hops, b, a, from);
  }

  lemma BothOrNeither(hops: seq<Hop>, a: seq<Span>, b: seq<Span>, from: nat)
    requires RoundTrips(hops, a, from, |hops|) && RoundTrips(hops, b, from, |hops|) && a != []
    ensures b != []
  {
    assert Closes(hops, a[0].first, a[0].last);
    assert Covers(b, a[0].first);
  }

  lemma SameFirst(hops: seq<Hop>, a: seq<Span>, b: seq<Span>, from: nat)
    requires a != [] && b != [] && RoundTrips(hops, a, from, |hops|) && RoundTrips(hops, b, from, |hops|)
    ensures b[0].first <= a[0].first
    ensures b[0].first == a[0].first ==> b[0].last <= a[0].last
  {
    assert Closes(hops, a[0].first, a[0].last);
    assert Covers(b, a[0].first);
    var n :| 0 <= n < |b| && b[n].first <= a[0].first <= b[n].last;
    assert b[0].first <= a[0].last < b[0].last ==> !Closes(hops, b[0].first, a[0].last);
  }

  lemma DropFirst(hops: seq<Hop>, spans: seq<Span>, from: nat)
    requires spans != [] && RoundTrips(hops, spans, from, |hops|)
    ensures RoundTrips(hops, spans[1..], spans[0].last + 1, |hops|)
  {
    forall i: nat, j: nat | spans[0].last + 1 <= i < |hops| && Closes(hops, i, j) ensures Covers(spans[1..], i) {
      assert Covers(spans, i);
      var n :| 0 <= n < |spans| && spans[n].first <= i <= spans[n].last;
      assert spans[1..][n - 1] == spans[n];
    }
  }
}
