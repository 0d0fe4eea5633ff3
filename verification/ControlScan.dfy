/** The scan behind a control population: the pages of each segment in turn, up to a budget of events. */
module ControlScan {
  import opened Wrappers
  import opened SegmentScan

  /** The population of one call: the events scanned, whether more are left, and where to go on. */
  datatype Population = Population(scanned: seq<Event>, truncated: bool, stalled: bool, next: Option<Mark>)

  /** Where the scan of one segment stops: at its end, at a mark inside it, or stalled. */
  datatype SegmentEnd = Finished | Paused(after: Option<string>) | Stalled

  /** The reading went on from `from` to `to`, with `events` on the way. */
  ghost predicate Went(v: Ledger, from: Mark, events: seq<Event>, to: Mark) {
    v.rest(from) == events + v.rest(to) && v.left(to) <= v.left(from)
  }

  lemma Stays(v: Ledger, m: Mark)
    ensures Went(v, m, [], m)
  {
    assert [] + v.rest(m) == v.rest(m);
  }

  lemma WentOn(v: Ledger, a: Mark, first: seq<Event>, b: Mark, second: seq<Event>, c: Mark)
    requires Went(v, a, first, b) && Went(v, b, second, c)
    ensures Went(v, a, first + second, c)
  {
    assert first + (second + v.rest(c)) == first + second + v.rest(c);
  }

  /** Events read on from a point reached are still the first of what remained at the start. */
  lemma PrefixOn(v: Ledger, a: Mark, first: seq<Event>, b: Mark, second: seq<Event>)
    requires Went(v, a, first, b) && second <= v.rest(b)
    ensures first + second <= v.rest(a)
  {
    assert v.rest(b) == second + v.rest(b)[|second|..];
    assert v.rest(a) == first + second + v.rest(b)[|second|..];
  }

  /** The cursor is the one the service gives for its place. */
  predicate Canonical(s: Service, m: Mark) {
    m.inner == Some(s.cursor(m.seg, PositionOf(s, m.seg, m.inner)))
  }

  /** A cursor that is not the one read from has advanced, or is the service's own name for the same place. */
  lemma NewCursor(s: Service, m: Mark, first: nat, tick: nat)
    requires Honest(s) && Resumable(s, m) && first >= 1
    ensures var pos := PositionOf(s, m.seg, m.inner); pos <= s.stop(m.seg, pos, first, tick) <= |s.segments[m.seg]|
    ensures var page := ReadPage(s, m.seg, m.inner, first, tick, true);
      page.hasNextPage && page.endCursor != m.inner ==>
        Canonical(s, After(m, page)) && (LeftAt(s, After(m, page)) < LeftAt(s, m) || !Canonical(s, m))
  {
    PageTakes(s, m, first, tick, true);
    var pos := PositionOf(s, m.seg, m.inner);
    ReadTakes(s, m.seg, pos, s.stop(m.seg, pos, first, tick));
  }

  /** One read of a segment, of at most a page and at most `room` events. */
  method TakePage(s: Service, ghost v: Ledger, gives: nat -> bool, seg: nat, after: Option<string>, room: nat, tick: nat) returns (page: Page)
    requires Honest(s) && Keeps(v, s) && Resumable(s, Mark(seg, after)) && room >= 1
    ensures |page.nodes| <= room && page.nodes <= v.rest(Mark(seg, after))
    ensures page.hasNextPage && page.endCursor.None? ==> !gives(tick)
    ensures page.hasNextPage && page.endCursor == after && Advances(s) ==> !gives(tick)
    ensures var m := Mark(seg, after);
      !page.hasNextPage || (page.endCursor.Some? && page.endCursor != after) ==>
        && Went(v, m, page.nodes, After(m, page))
        && (page.hasNextPage ==> Resumable(s, After(m, page)) && Canonical(s, After(m, page)))
        && (v.left(After(m, page)) < v.left(m) || (page.hasNextPage && !Canonical(s, m) && !Advances(s)))
  {
    var first := if PAGE_SIZE <= room then PAGE_SIZE else room;
    ghost var m := Mark(seg, after);
    PageTakes(s, m, first, tick, gives(tick));
    PageTaken(s, m, first, tick, gives(tick));
    NewCursor(s, m, first, tick);
    page := ReadPage(s, seg, after, first, tick, gives(tick));
  }

  /** Some read between the two did not give its end cursor. */
  ghost predicate Withheld(gives: nat -> bool, from: nat, to: nat) {
    exists t :: from <= t < to && !gives(t)
  }

  lemma WithheldAt(gives: nat -> bool, from: nat, t: nat, to: nat)
    requires from <= t < to
    ensures !gives(t) ==> Withheld(gives, from, to)
  {
  }

  /** Where the loop below stands after the reads from `tick` to `tick'`: at cursor `after` of the segment it started in. */
  ghost predicate Scanning(s: Service, v: Ledger, start: Mark, after: Option<string>, events: seq<Event>, room: nat, tick: nat, tick': nat) {
    var m := Mark(start.seg, after);
    && |events| <= room && tick <= tick' && (tick' == tick ==> events == [])
    && Resumable(s, m) && Went(v, start, events, m)
    && (Advances(s) && tick' > tick ==> v.left(m) < v.left(start))
  }

  /** One read nearer the end: less is left, or a foreign cursor has given way to the service's own for the same place. */
  ghost predicate Nearer(s: Service, v: Ledger, m: Mark, m': Mark) {
    v.left(m') < v.left(m) || (v.left(m') <= v.left(m) && !Canonical(s, m) && Canonical(s, m'))
  }

  /** One pass of the loop below; paused means it may go on. */
  method ScanOne(s: Service, ghost v: Ledger, gives: nat -> bool, seg: nat, ghost start: Mark, after: Option<string>, events: seq<Event>, room: nat,
                 ghost tick: nat, tick': nat)
    returns (events': seq<Event>, end: SegmentEnd)
    requires Honest(s) && Keeps(v, s) && seg == start.seg && Scanning(s, v, start, after, events, room, tick, tick') && |events| < room
    ensures |events'| <= room && events' <= v.rest(start)
    ensures end.Paused? ==>
      Scanning(s, v, start, end.after, events', room, tick, tick' + 1) && Nearer(s, v, Mark(seg, after), Mark(seg, end.after))
    ensures end.Finished? ==> Went(v, start, events', Mark(seg + 1, None)) && v.left(Mark(seg + 1, None)) < v.left(start)
    ensures end.Stalled? && Advances(s) ==> Withheld(gives, tick, tick' + 1)
  {
    ghost var m := Mark(seg, after);
    var page := TakePage(s, v, gives, seg, after, room - |events|, tick');
    events' := events + page.nodes;
    PrefixOn(v, start, events, m, page.nodes);
    if page.hasNextPage && (page.endCursor.None? || page.endCursor == after) {
      WithheldAt(gives, tick, tick', tick' + 1);
      return events', Stalled;
    }
    WentOn(v, start, events, m, page.nodes, After(m, page));
    end := if page.hasNextPage then Paused(page.endCursor) else Finished;
  }

  /**
   * The inner loop: the pages of segment `seg`, until it ends, the budget is
   * spent or the cursor does not advance. It ends even if the service's
   * cursors never advance.
   */
  method ScanSegment(s: Service, ghost v: Ledger, gives: nat -> bool, seg: nat, from: Option<string>, room: nat, tick: nat)
    returns (events: seq<Event>, end: SegmentEnd, tick': nat)
    requires Honest(s) && Keeps(v, s) && Resumable(s, Mark(seg, from)) && room >= 1
    ensures |events| <= room && tick <= tick' && events <= v.rest(Mark(seg, from))
    ensures end.Paused? ==> |events| == room && Resumable(s, Mark(seg, end.after)) && Went(v, Mark(seg, from), events, Mark(seg, end.after))
    ensures end.Paused? && Advances(s) ==> v.left(Mark(seg, end.after)) < v.left(Mark(seg, from))
    ensures end.Finished? ==> Went(v, Mark(seg, from), events, Mark(seg + 1, None)) && v.left(Mark(seg + 1, None)) < v.left(Mark(seg, from))
    ensures end.Stalled? && Advances(s) ==> Withheld(gives, tick, tick')
  {
    ghost var start := Mark(seg, from);
    var after := from;
    events, tick' := [], tick;
    Stays(v, start);
    while |events| < room
      invariant Scanning(s, v, start, after, events, room, tick, tick')
      decreases v.left(Mark(seg, after)), !Canonical(s, Mark(seg, after))
    {
      events, end := ScanOne(s, v, gives, seg, start, after, events, room, tick, tick');
      tick' := tick' + 1;
      if !end.Paused? {
        return;
      }
      after := end.after;
    }
    end := Paused(after);
  }

  /** What the population of one call is, over a budget, from a start. */
  ghost predicate PopulationOk(s: Service, v: Ledger, start: Mark, budget: nat, p: Population) {
    && |p.scanned| <= budget && p.scanned <= v.rest(start)
    && (!p.truncated ==> v.rest(start) == p.scanned && p.next.None?)
    && (p.stalled ==> p.truncated && p.next.None?)
    && (p.truncated && !p.stalled ==>
          && p.next.Some? && Resumable(s, p.next.value) && |p.scanned| == budget
          && v.rest(start) == p.scanned + v.rest(p.next.value)
          && (Advances(s) ==> v.left(p.next.value) < v.left(start)))
  }

  /** Before segment `index`: what was scanned is all that comes before it, from the start. */
  ghost predicate Before(s: Service, v: Ledger, start: Mark, budget: nat, index: nat, scanned: seq<Event>) {
    var m := BeginsAt(start, index);
    && |scanned| <= budget && start.seg <= index <= |s.segments|
    && Went(v, start, scanned, m)
    && (if index == start.seg then scanned == [] else v.left(m) < v.left(start))
  }

  /** Where the scan of segment `index` begins. */
  ghost function BeginsAt(start: Mark, index: nat): Mark {
    if index == start.seg then start else Mark(index, None)
  }

  lemma StallsThere(s: Service, v: Ledger, start: Mark, budget: nat, index: nat, scanned: seq<Event>, events: seq<Event>)
    requires Before(s, v, start, budget, index, scanned) && |scanned| + |events| <= budget
    requires events <= v.rest(BeginsAt(start, index))
    ensures PopulationOk(s, v, start, budget, Population(scanned + events, true, true, None))
  {
    PrefixOn(v, start, scanned, BeginsAt(start, index), events);
  }

  lemma PausesThere(s: Service, v: Ledger, start: Mark, budget: nat, index: nat, scanned: seq<Event>, events: seq<Event>, after: Option<string>)
    requires Before(s, v, start, budget, index, scanned) && |scanned| + |events| == budget
    requires Resumable(s, Mark(index, after)) && Went(v, BeginsAt(start, index), events, Mark(index, after))
    requires Advances(s) ==> v.left(Mark(index, after)) < v.left(BeginsAt(start, index))
    ensures PopulationOk(s, v, start, budget, Population(scanned + events, true, false, Some(Mark(index, after))))
  {
    WentOn(v, start, scanned, BeginsAt(start, index), events, Mark(index, after));
  }

  lemma SegmentScanned(s: Service, v: Ledger, start: Mark, budget: nat, index: nat, scanned: seq<Event>, events: seq<Event>)
    requires Before(s, v, start, budget, index, scanned) && |scanned| + |events| <= budget && index < |s.segments|
    requires Went(v, BeginsAt(start, index), events, Mark(index + 1, None))
    requires v.left(Mark(index + 1, None)) < v.left(BeginsAt(start, index))
    ensures Before(s, v, start, budget, index + 1, scanned + events)
  {
    WentOn(v, start, scanned, BeginsAt(start, index), events, Mark(index + 1, None));
  }

  /** After the last segment everything was scanned. */
  lemma AllScanned(s: Service, v: Ledger, start: Mark, budget: nat, scanned: seq<Event>)
    requires Keeps(v, s) && Before(s, v, start, budget, |s.segments|, scanned) && start.seg < |s.segments|
    ensures PopulationOk(s, v, start, budget, Population(scanned, false, false, None))
  {
    assert RemainingAt(s, Mark(|s.segments|, None)) == [] && scanned + [] == scanned;
  }

  /** One pass of the loop below: segment `index`, as far as the budget goes. */
  method ScanNext(s: Service, ghost v: Ledger, gives: nat -> bool, start: Mark, budget: nat, index: nat, scanned: seq<Event>, tick: nat)
    returns (scanned': seq<Event>, tick': nat, stop: Option<Population>)
    requires Honest(s) && Keeps(v, s) && Resumable(s, start) && budget >= 1
    requires Before(s, v, start, budget, index, scanned) && index < |s.segments|
    ensures stop.None? ==> Before(s, v, start, budget, index + 1, scanned')
    ensures stop.Some? ==> PopulationOk(s, v, start, budget, stop.value)
    ensures stop.Some? && stop.value.stalled && Advances(s) ==> !Gives(gives)
  {
    var from := if index == start.seg then start.inner else None;
    if |scanned| >= budget {
      return scanned, tick, Some(Population(scanned, true, false, Some(Mark(index, from))));
    }
    var events, end;
    events, end, tick' := ScanSegment(s, v, gives, index, from, budget - |scanned|, tick);
    scanned' := scanned + events;
    match end {
      case Stalled =>
        StallsThere(s, v, start, budget, index, scanned, events);
        stop := Some(Population(scanned', true, true, None));
      case Paused(after) =>
        PausesThere(s, v, start, budget, index, scanned, events, after);
        stop := Some(Population(scanned', true, false, Some(Mark(index, after))));
      case Finished =>
        SegmentScanned(s, v, start, budget, index, scanned, events);
        stop := None;
    }
  }

  lemma BeforeTheFirst(s: Service, v: Ledger, start: Mark, budget: nat)
    requires Resumable(s, start)
    ensures Before(s, v, start, budget, start.seg, [])
  {
    Stays(v, start);
  }

  /**
   * The scan: the resume cursor goes on at exactly the first event not scanned,
   * across a segment's end, and there is none after a cursor that did not
   * advance.
   */
  method ScanPopulation(s: Service, ghost v: Ledger, gives: nat -> bool, start: Mark, budget: nat, tick: nat) returns (p: Population)
    requires Honest(s) && Keeps(v, s) && Resumable(s, start) && budget >= 1
    ensures PopulationOk(s, v, start, budget, p)
    ensures p.stalled && Advances(s) ==> !Gives(gives)
  {
    var index := start.seg;
    var scanned: seq<Event> := [];
    var clock := tick;
    BeforeTheFirst(s, v, start, budget);
    while index < |s.segments|
      invariant Before(s, v, start, budget, index, scanned)
      decreases |s.segments| - index
    {
      var stop;
      scanned, clock, stop := ScanNext(s, v, gives, start, budget, index, scanned, clock);
      if stop.Some? {
        return stop.value;
      }
      index := index + 1;
    }
    AllScanned(s, v, start, budget, scanned);
    p := Population(scanned, false, false, None);
  }
}
