/** The event page that is filled from several reads. */
module EventPages {
  import opened Wrappers
  import opened SegmentScan

  datatype EventPage = EventPage(events: seq<Event>, readCount: nat, hasNextPage: bool, nextCursor: Option<string>)

  /** A composite cursor names its segment; a single connection passes the service's own cursor through. */
  function PageStart(number: Numeral, split: bool, cursor: Option<string>): LooseMark {
    if split then DecodeLoose(number, cursor) else LooseMark(0, cursor)
  }

  // ---------------------------------------------------------------------------
  // Filling a page
  // ---------------------------------------------------------------------------

  /**
   * What one read does. It is lost when it claims another page and gives no
   * cursor, though the service has got to `at`. Otherwise reading goes on at
   * `next`; a read that ends its segment may leave an end cursor.
   */
  datatype Step = Lost(nodes: seq<Event>, at: Mark) | On(nodes: seq<Event>, next: Mark, ends: bool, endCursor: Option<string>)

  /** A read for each mark, number of events asked for, and moment. */
  type Stepper = (Mark, nat, nat) -> Step

  /** Whether a read is one the service answers. */
  predicate Readable(s: Service, m: Mark, first: nat, tick: nat) {
    && m.seg < |s.segments|
    && var pos := PositionOf(s, m.seg, m.inner); pos <= s.stop(m.seg, pos, first, tick) <= |s.segments[m.seg]|
  }

  /** `keepsEnd` is true when the list's last cursor is returned too (oldest first). */
  function StepAt(s: Service, gives: nat -> bool, keepsEnd: bool, m: Mark, first: nat, tick: nat): Step
    requires Readable(s, m, first, tick)
  {
    var page := ReadPage(s, m.seg, m.inner, first, tick, gives(tick));
    if page.hasNextPage && page.endCursor.None? then Lost(page.nodes, Past(s, m, first, tick))
    else On(page.nodes, After(m, page), !page.hasNextPage, if keepsEnd then page.endCursor else None)
  }

  function StepperOf(s: Service, gives: nat -> bool, keepsEnd: bool): Stepper {
    (m: Mark, first: nat, tick: nat) =>
      if Readable(s, m, first, tick) then StepAt(s, gives, keepsEnd, m, first, tick) else On([], Mark(m.seg + 1, None), true, None)
  }

  /**
   * What the reads of one page come to: the events, the number of reads, the
   * mark the loop ends at and the one the service has got to, which differ when
   * a read was lost, and the end cursor of the last segment read to its end.
   */
  datatype Filled = Filled(events: seq<Event>, readCount: nat, mark: Mark, at: Mark, lost: bool, endCursor: Option<string>)

  function Behind(nodes: seq<Event>, f: Filled): Filled {
    f.(events := nodes + f.events, readCount := 1 + f.readCount)
  }

  function Less(a: nat, b: nat): nat {
    if a < b then 0 else a - b
  }

  /** At most `left` reads for at most `room` events, over `segments` segments. */
  function Fill(stepper: Stepper, segments: nat, m: Mark, room: nat, left: nat, tick: nat, endCursor: Option<string>): Filled
    decreases left
  {
    if m.seg >= segments || room == 0 || left == 0 then Filled([], 0, m, m, false, endCursor)
    else
      match stepper(m, room, tick)
      case Lost(nodes, at) => Filled(nodes, 1, Mark(m.seg, None), at, true, endCursor)
      case On(nodes, next, ends, end) =>
        Behind(nodes, Fill(stepper, segments, next, Less(room, |nodes|), left - 1, tick + 1, if ends then end else endCursor))
  }

  /** `whole` is the page whose first `done` reads returned `events`, and whose others come to `rest`. */
  predicate Along(whole: Filled, events: seq<Event>, done: nat, rest: Filled) {
    whole == rest.(events := events + rest.events, readCount := done + rest.readCount)
  }

  lemma AlongMore(whole: Filled, events: seq<Event>, done: nat, nodes: seq<Event>, rest: Filled)
    requires Along(whole, events, done, Behind(nodes, rest))
    ensures Along(whole, events + nodes, done + 1, rest)
  {
    assert events + (nodes + rest.events) == events + nodes + rest.events;
  }

  /** Where the loop below stands after `done` reads of a page that comes to `whole` in all. */
  ghost predicate Filling(s: Service, stepper: Stepper, whole: Filled, pageSize: nat, maxReads: nat, tick: nat,
                          m: Mark, events: seq<Event>, done: nat, endCursor: Option<string>, lost: bool)
  {
    && |events| <= pageSize && done <= maxReads && (m.seg < |s.segments| ==> Resumable(s, m))
    && if lost then whole.events == events && whole.readCount == done && whole.mark == m && whole.endCursor == endCursor
       else Along(whole, events, done, Fill(stepper, |s.segments|, m, pageSize - |events|, maxReads - done, tick + done, endCursor))
  }

  lemma FillingStarts(s: Service, stepper: Stepper, pageSize: nat, maxReads: nat, tick: nat, from: Mark)
    requires from.seg < |s.segments| ==> Resumable(s, from)
    ensures Filling(s, stepper, Fill(stepper, |s.segments|, from, pageSize, maxReads, tick, None), pageSize, maxReads, tick, from, [], 0, None, false)
  {
    var whole := Fill(stepper, |s.segments|, from, pageSize, maxReads, tick, None);
    assert [] + whole.events == whole.events;
  }

  lemma FillingIsDone(s: Service, stepper: Stepper, whole: Filled, pageSize: nat, maxReads: nat, tick: nat,
                      m: Mark, events: seq<Event>, done: nat, endCursor: Option<string>, lost: bool)
    requires Filling(s, stepper, whole, pageSize, maxReads, tick, m, events, done, endCursor, lost)
    requires m.seg >= |s.segments| || |events| >= pageSize || done >= maxReads || lost
    ensures whole.mark == m && whole.events == events && whole.readCount == done && whole.endCursor == endCursor
  {
    assert events + [] == events;
  }

  /** What one read makes of where the loop stands. */
  lemma FillingMore(s: Service, stepper: Stepper, whole: Filled, pageSize: nat, maxReads: nat, tick: nat,
                    m: Mark, events: seq<Event>, done: nat, endCursor: Option<string>, step: Step)
    requires Filling(s, stepper, whole, pageSize, maxReads, tick, m, events, done, endCursor, false)
    requires m.seg < |s.segments| && |events| < pageSize && done < maxReads
    requires step == stepper(m, pageSize - |events|, tick + done) && |step.nodes| <= pageSize - |events|
    requires step.On? && step.next.seg < |s.segments| ==> Resumable(s, step.next)
    ensures var m' := if step.Lost? then Mark(m.seg, None) else step.next;
      Filling(s, stepper, whole, pageSize, maxReads, tick, m', events + step.nodes, done + 1,
              if step.On? && step.ends then step.endCursor else endCursor, step.Lost?)
  {
    if step.On? {
      AlongMore(whole, events, done, step.nodes,
                Fill(stepper, |s.segments|, step.next, pageSize - |events| - |step.nodes|, maxReads - done - 1, tick + done + 1,
                     if step.ends then step.endCursor else endCursor));
    } else {
      assert PositionOf(s, m.seg, None) == 0;
    }
  }

  /** One pass of the loop: the next page of the segment at hand. */
  method FillOne(s: Service, gives: nat -> bool, keepsEnd: bool, ghost stepper: Stepper, ghost whole: Filled, pageSize: nat, maxReads: nat, tick: nat,
                 m: Mark, events: seq<Event>, done: nat, endCursor: Option<string>)
    returns (m': Mark, events': seq<Event>, endCursor': Option<string>, lost: bool)
    requires Honest(s) && stepper == StepperOf(s, gives, keepsEnd)
    requires Filling(s, stepper, whole, pageSize, maxReads, tick, m, events, done, endCursor, false)
    requires m.seg < |s.segments| && |events| < pageSize && done < maxReads
    ensures Filling(s, stepper, whole, pageSize, maxReads, tick, m', events', done + 1, endCursor', lost)
  {
    var first := pageSize - |events|;
    PageTakes(s, m, first, tick + done, gives(tick + done));
    var page := ReadPage(s, m.seg, m.inner, first, tick + done, gives(tick + done));
    FillingMore(s, stepper, whole, pageSize, maxReads, tick, m, events, done, endCursor, StepAt(s, gives, keepsEnd, m, first, tick + done));
    events', m', endCursor', lost := events + page.nodes, After(m, page), endCursor, false;
    if !page.hasNextPage {
      endCursor' := if keepsEnd then page.endCursor else None;
    } else {
      lost := page.endCursor.None?;
    }
  }

  /** The loop that fills the page: segments are read in turn until it is full, the reads are spent or a page gives no cursor. */
  method FillReads(s: Service, gives: nat -> bool, keepsEnd: bool, from: Mark, pageSize: nat, maxReads: nat, tick: nat)
    returns (segIdx: nat, inner: Option<string>, events: seq<Event>, done: nat, endCursor: Option<string>)
    requires Honest(s) && (from.seg < |s.segments| ==> Resumable(s, from))
    ensures var f := Fill(StepperOf(s, gives, keepsEnd), |s.segments|, from, pageSize, maxReads, tick, None);
      Mark(segIdx, inner) == f.mark && events == f.events && done == f.readCount && endCursor == f.endCursor
  {
    ghost var stepper := StepperOf(s, gives, keepsEnd);
    ghost var whole := Fill(stepper, |s.segments|, from, pageSize, maxReads, tick, None);
    var m, lost := from, false;
    events, done, endCursor := [], 0, None;
    FillingStarts(s, stepper, pageSize, maxReads, tick, from);
    while m.seg < |s.segments| && |events| < pageSize && done < maxReads && !lost
      invariant Filling(s, stepper, whole, pageSize, maxReads, tick, m, events, done, endCursor, lost)
      decreases maxReads - done
    {
      m, events, endCursor, lost := FillOne(s, gives, keepsEnd, stepper, whole, pageSize, maxReads, tick, m, events, done, endCursor);
      done := done + 1;
    }
    FillingIsDone(s, stepper, whole, pageSize, maxReads, tick, m, events, done, endCursor, lost);
    segIdx, inner := m.seg, m.inner;
  }

  // ---------------------------------------------------------------------------
  // What a page lists
  // ---------------------------------------------------------------------------

  /** What one honest read from `m` gives: events off the front of what remained, up to where the service has got to. */
  ghost predicate StepOk(s: Service, v: Ledger, m: Mark, first: nat, step: Step) {
    var at := if step.Lost? then step.at else step.next;
    && |step.nodes| <= first
    && (at.seg < |s.segments| ==> Resumable(s, at)) && (at.seg >= |s.segments| ==> at.inner.None?)
    && (if step.Lost? then at.seg == m.seg else m.seg < at.seg || (at.seg == m.seg && at.inner.Some?))
    && v.rest(m) == step.nodes + v.rest(at) && v.left(at) <= v.left(m) && (Advances(s) ==> v.left(at) < v.left(m))
  }

  ghost predicate StepsOk(s: Service, v: Ledger, stepper: Stepper) {
    forall m, first, tick :: Resumable(s, m) && first >= 1 ==> StepOk(s, v, m, first, stepper(m, first, tick))
  }

  lemma ServiceStep(s: Service, gives: nat -> bool, keepsEnd: bool, m: Mark, first: nat, tick: nat)
    requires Honest(s) && Resumable(s, m) && first >= 1
    ensures StepOk(s, LedgerOf(s), m, first, StepperOf(s, gives, keepsEnd)(m, first, tick))
  {
    LedgerKeeps(s);
    var at := PageMoves(s, LedgerOf(s), m, first, tick, gives(tick));
    assert Readable(s, m, first, tick);
  }

  lemma ServiceSteps(s: Service, gives: nat -> bool, keepsEnd: bool)
    requires Honest(s)
    ensures StepsOk(s, LedgerOf(s), StepperOf(s, gives, keepsEnd))
  {
    forall m, first, tick | Resumable(s, m) && first >= 1
      ensures StepOk(s, LedgerOf(s), m, first, StepperOf(s, gives, keepsEnd)(m, first, tick))
    {
      ServiceStep(s, gives, keepsEnd, m, first, tick);
    }
  }

  /** What holds of every page: its events come off the front of what remained, up to where the service has got to. */
  ghost predicate Stands(s: Service, v: Ledger, m: Mark, room: nat, left: nat, f: Filled) {
    && |f.events| <= room && f.readCount <= left && m.seg <= f.mark.seg
    && (if f.mark.seg < |s.segments| then Resumable(s, f.mark) && Resumable(s, f.at) else f.mark.inner.None?)
    && v.rest(m) == f.events + v.rest(f.at)
    && v.left(f.at) <= v.left(m) && (Advances(s) ==> v.left(f.at) + f.readCount <= v.left(m))
    && (if f.lost then f.mark == Mark(f.at.seg, None) && f.mark.seg < |s.segments| && f.readCount > 0 else f.at == f.mark)
    && (f.mark.seg < |s.segments| ==> f.lost || |f.events| == room || f.readCount == left)
  }

  lemma StandsBehind(s: Service, v: Ledger, m: Mark, room: nat, left: nat, step: Step, f: Filled)
    requires left > 0 && StepOk(s, v, m, room, step) && step.On? && Stands(s, v, step.next, room - |step.nodes|, left - 1, f)
    ensures Stands(s, v, m, room, left, Behind(step.nodes, f))
  {
    assert step.nodes + (f.events + v.rest(f.at)) == step.nodes + f.events + v.rest(f.at);
  }

  lemma StandsLost(s: Service, v: Ledger, m: Mark, room: nat, left: nat, step: Step, endCursor: Option<string>)
    requires left > 0 && m.seg < |s.segments| && StepOk(s, v, m, room, step) && step.Lost?
    ensures Stands(s, v, m, room, left, Filled(step.nodes, 1, Mark(m.seg, None), step.at, true, endCursor))
  {
    assert PositionOf(s, m.seg, None) == 0;
  }

  lemma StandsStill(s: Service, v: Ledger, m: Mark, room: nat, left: nat, endCursor: Option<string>)
    requires if m.seg < |s.segments| then Resumable(s, m) && (room == 0 || left == 0) else m.inner.None?
    ensures Stands(s, v, m, room, left, Filled([], 0, m, m, false, endCursor))
  {
    assert [] + v.rest(m) == v.rest(m);
  }

  lemma {:induction false} FillStands(s: Service, v: Ledger, stepper: Stepper, m: Mark, room: nat, left: nat, tick: nat, endCursor: Option<string>)
    requires StepsOk(s, v, stepper) && if m.seg < |s.segments| then Resumable(s, m) else m.inner.None?
    ensures Stands(s, v, m, room, left, Fill(stepper, |s.segments|, m, room, left, tick, endCursor))
    decreases left
  {
    if m.seg >= |s.segments| || room == 0 || left == 0 {
      StandsStill(s, v, m, room, left, endCursor);
    } else {
      var step := stepper(m, room, tick);
      assert StepOk(s, v, m, room, step);
      if step.Lost? {
        StandsLost(s, v, m, room, left, step, endCursor);
      } else {
        var end := if step.ends then step.endCursor else endCursor;
        FillStands(s, v, stepper, step.next, room - |step.nodes|, left - 1, tick + 1, end);
        StandsBehind(s, v, m, room, left, step, Fill(stepper, |s.segments|, step.next, room - |step.nodes|, left - 1, tick + 1, end));
      }
    }
  }

  // ---------------------------------------------------------------------------
  // The end cursor
  // ---------------------------------------------------------------------------

  /** A read stays in its segment or ends it, and the end cursor it leaves, if any is kept, stands behind all its rows. */
  ghost predicate StepEnds(s: Service, keepsEnd: bool, given: bool, m: Mark, step: Step) {
    step.On? ==>
      && (step.ends && keepsEnd && given ==> step.endCursor.Some?)
      && step.next.seg == (if step.ends then m.seg + 1 else m.seg)
      && (step.endCursor.Some? ==> keepsEnd)
      && (step.ends && step.endCursor.Some? ==> AtEnd(s, m.seg, step.endCursor))
  }

  /** The end cursor a page leaves is that of the last segment it ended; there is one if every read gives its cursor. */
  ghost predicate EndsAt(s: Service, keepsEnd: bool, given: bool, m: Mark, f: Filled, endCursor: Option<string>) {
    && m.seg <= f.mark.seg
    && (if f.mark.seg == m.seg then f.endCursor == endCursor
        else (f.endCursor.Some? ==> keepsEnd && AtEnd(s, f.mark.seg - 1, f.endCursor)) && (keepsEnd && given ==> f.endCursor.Some?))
  }

  lemma {:induction false} FillEnds(s: Service, v: Ledger, stepper: Stepper, keepsEnd: bool, given: bool, m: Mark, room: nat, left: nat, tick: nat, endCursor: Option<string>)
    requires StepsOk(s, v, stepper) && if m.seg < |s.segments| then Resumable(s, m) else m.inner.None?
    requires forall m, first, tick :: Resumable(s, m) && first >= 1 ==> StepEnds(s, keepsEnd, given, m, stepper(m, first, tick))
    ensures EndsAt(s, keepsEnd, given, m, Fill(stepper, |s.segments|, m, room, left, tick, endCursor), endCursor)
    decreases left
  {
    if m.seg < |s.segments| && room > 0 && left > 0 {
      var step := stepper(m, room, tick);
      assert StepOk(s, v, m, room, step) && StepEnds(s, keepsEnd, given, m, step);
      if step.On? {
        FillEnds(s, v, stepper, keepsEnd, given, step.next, room - |step.nodes|, left - 1, tick + 1, if step.ends then step.endCursor else endCursor);
      }
    }
  }

  lemma ServiceEnds(s: Service, gives: nat -> bool, keepsEnd: bool, m: Mark, first: nat, tick: nat)
    requires Honest(s) && Resumable(s, m) && first >= 1
    ensures StepEnds(s, keepsEnd, gives(tick), m, StepperOf(s, gives, keepsEnd)(m, first, tick))
  {
    LedgerKeeps(s);
    var at := PageMoves(s, LedgerOf(s), m, first, tick, gives(tick));
    assert Readable(s, m, first, tick);
  }

  // ---------------------------------------------------------------------------
  // query_events
  // ---------------------------------------------------------------------------

  lemma ServiceFills(s: Service, gives: nat -> bool, keepsEnd: bool, m: Mark, room: nat, left: nat, tick: nat)
    requires Honest(s) && Resumable(s, m)
    ensures var f := Fill(StepperOf(s, gives, keepsEnd), |s.segments|, m, room, left, tick, None);
      Stands(s, LedgerOf(s), m, room, left, f) && EndsAt(s, keepsEnd, Gives(gives), m, f, None)
  {
    var stepper := StepperOf(s, gives, keepsEnd);
    ServiceSteps(s, gives, keepsEnd);
    FillStands(s, LedgerOf(s), stepper, m, room, left, tick, None);
    forall m, first, tick | Resumable(s, m) && first >= 1 ensures StepEnds(s, keepsEnd, Gives(gives), m, stepper(m, first, tick)) {
      ServiceEnds(s, gives, keepsEnd, m, first, tick);
    }
    FillEnds(s, LedgerOf(s), stepper, keepsEnd, Gives(gives), m, room, left, tick, None);
  }

  /**
   * Where the next call starts, if the page has a cursor for it: in a split
   * window where the reads ended, over a single connection only at a cursor
   * of the service's.
   */
  function NextStart(split: bool, segments: nat, f: Filled): Option<Mark> {
    if f.mark.seg < segments && (split || f.mark.inner.Some?) then Some(f.mark) else None
  }

  /** A page of at least one read has no cursor to go on with only at the end of the window, or where a single connection withheld it. */
  lemma NoNextStart(s: Service, v: Ledger, stepper: Stepper, split: bool, m: Mark, room: nat, left: nat, tick: nat)
    requires StepsOk(s, v, stepper) && Resumable(s, m) && room >= 1 && left >= 1 && (split || |s.segments| == 1)
    ensures var f := Fill(stepper, |s.segments|, m, room, left, tick, None);
      NextStart(split, |s.segments|, f).None? <==> f.mark.seg >= |s.segments| || (f.lost && !split)
  {
    FillStands(s, v, stepper, m, room, left, tick, None);
    if !split {
      GoesOnWithCursor(s, v, stepper, m, room, left, tick, None);
    }
  }

  lemma {:induction false} GoesOnWithCursor(s: Service, v: Ledger, stepper: Stepper, m: Mark, room: nat, left: nat, tick: nat, endCursor: Option<string>)
    requires StepsOk(s, v, stepper) && Resumable(s, m) && |s.segments| == 1 && (m.inner.Some? || (room >= 1 && left >= 1))
    ensures var f := Fill(stepper, |s.segments|, m, room, left, tick, endCursor);
      f.mark.seg < |s.segments| && !f.lost ==> f.mark.inner.Some?
    decreases left
  {
    if room >= 1 && left >= 1 {
      var step := stepper(m, room, tick);
      assert StepOk(s, v, m, room, step);
      if step.On? && step.next.seg < |s.segments| {
        GoesOnWithCursor(s, v, stepper, step.next, room - |step.nodes|, left - 1, tick + 1, if step.ends then step.endCursor else endCursor);
      }
    }
  }

  /** The cursor of the next call, if there is one: it is decoded to where the page says. */
  ghost predicate Offers(s: Service, number: Numeral, split: bool, page: EventPage, next: Option<Mark>) {
    && (next.Some? <==> page.hasNextPage && page.nextCursor.Some?)
    && (next.Some? ==> PageStart(number, split, page.nextCursor) == LooseMark(next.value.seg, next.value.inner) && Resumable(s, next.value))
  }

  /**
   * One call, over a window split in segments or a single connection. Its page
   * is what the reads come to, with a cursor to go on with as `NextStart` says;
   * at the end of a single connection the cursor stands behind the last row, if
   * it is kept. A cursor that names a segment before the first fails the call,
   * and one that names a segment after the last gives an empty last page.
   */
  method FillPage(s: Service, number: Numeral, split: bool, keepsEnd: bool, gives: nat -> bool, cursor: Option<string>, pageSize: nat, maxReads: nat, tick: nat)
    returns (page: Option<EventPage>)
    requires Honest(s) && ReadsDecimals(number) && (split || |s.segments| == 1) && pageSize >= 1 && maxReads >= 1
    requires var start := PageStart(number, split, cursor); 0 <= start.seg < |s.segments| ==> Resumable(s, Mark(start.seg, start.inner))
    ensures var start := PageStart(number, split, cursor);
      && (page.None? <==> start.seg < 0)
      && (start.seg >= |s.segments| ==> page == Some(EventPage([], 0, false, None)))
      && (0 <= start.seg < |s.segments| ==>
            var f := Fill(StepperOf(s, gives, keepsEnd), |s.segments|, Mark(start.seg, start.inner), pageSize, maxReads, tick, None);
            && Stands(s, LedgerOf(s), Mark(start.seg, start.inner), pageSize, maxReads, f)
            && page.value.events == f.events && page.value.readCount == f.readCount
            && (page.value.hasNextPage <==> f.mark.seg < |s.segments|)
            && Offers(s, number, split, page.value, NextStart(split, |s.segments|, f))
            && (!page.value.hasNextPage && page.value.nextCursor.Some? ==> !split && keepsEnd && AtEnd(s, 0, page.value.nextCursor))
            && (!page.value.hasNextPage && !split && keepsEnd && Gives(gives) ==> page.value.nextCursor.Some?))
  {
    var start := PageStart(number, split, cursor);
    if start.seg < 0 {
      return None;
    }
    if start.seg < |s.segments| {
      ServiceFills(s, gives, keepsEnd, Mark(start.seg, start.inner), pageSize, maxReads, tick);
    }
    var segIdx, inner, events, done, endCursor := FillReads(s, gives, keepsEnd, Mark(start.seg, start.inner), pageSize, maxReads, tick);
    var hasNextPage := segIdx < |s.segments|;
    var next := if split then if hasNextPage then Some(Encode(segIdx, inner)) else None
                else if hasNextPage then inner else endCursor;
    if hasNextPage && split {
      CursorRoundTrip(number, segIdx, inner, |s.segments|);
    }
    page := Some(EventPage(events, done, hasNextPage, next));
  }

  // ---------------------------------------------------------------------------
  // Lost pages
  // ---------------------------------------------------------------------------

  /** Every read of the page that claims another page gives its cursor. */
  predicate NoneLost(stepper: Stepper, segments: nat, m: Mark, room: nat, left: nat, tick: nat)
    decreases left
  {
    m.seg >= segments || room == 0 || left == 0
    || var step := stepper(m, room, tick);
       step.On? && NoneLost(stepper, segments, step.next, Less(room, |step.nodes|), left - 1, tick + 1)
  }

  lemma {:induction false} LostIfOneIs(stepper: Stepper, segments: nat, m: Mark, room: nat, left: nat, tick: nat, endCursor: Option<string>)
    ensures Fill(stepper, segments, m, room, left, tick, endCursor).lost <==> !NoneLost(stepper, segments, m, room, left, tick)
    decreases left
  {
    if m.seg < segments && room > 0 && left > 0 {
      var step := stepper(m, room, tick);
      if step.On? {
        LostIfOneIs(stepper, segments, step.next, Less(room, |step.nodes|), left - 1, tick + 1, if step.ends then step.endCursor else endCursor);
      }
    }
  }

  /** The events the service has passed in the segment it has got to. */
  function Passed(s: Service, at: Mark): seq<Event> {
    if Resumable(s, at) then Found(s.segments[at.seg][..PositionOf(s, at.seg, at.inner)]) else []
  }

  /** From the start of a segment, what has been passed there comes again before what remains. */
  lemma FromTheStart(s: Service, at: Mark)
    requires Resumable(s, at)
    ensures RemainingAt(s, Mark(at.seg, None)) == Passed(s, at) + RemainingAt(s, at)
  {
    var rows, pos := s.segments[at.seg], PositionOf(s, at.seg, at.inner);
    assert rows[0..pos] == rows[..pos];
    ReadTakes(s, at.seg, 0, pos);
  }

  /** What the next call goes on with: nothing when there is no cursor for it. */
  function Ahead(s: Service, next: Option<Mark>): seq<Event> {
    if next.Some? then RemainingAt(s, next.value) else []
  }

  /** Nothing is repeated or left out after a lost page: of a split window, the segment from its start; of a single connection, all the rest. */
  predicate Harmless(s: Service, split: bool, f: Filled) {
    if split then Passed(s, f.at) == [] else RemainingAt(s, f.at) == []
  }

  /**
   * The next call goes on with exactly what this page leaves if and only if
   * every read that claimed another page gave its cursor, or losing the page
   * did no harm. After a lost page of a split window comes all that its segment
   * had passed, again, and then the rest; of a single connection, nothing.
   */
  lemma NextGoesOn(s: Service, split: bool, m: Mark, stepper: Stepper, room: nat, left: nat, tick: nat)
    requires StepsOk(s, LedgerOf(s), stepper) && Resumable(s, m) && room >= 1 && left >= 1 && (split || |s.segments| == 1)
    ensures var f := Fill(stepper, |s.segments|, m, room, left, tick, None);
      var given, ahead := NoneLost(stepper, |s.segments|, m, room, left, tick), Ahead(s, NextStart(split, |s.segments|, f));
      && (RemainingAt(s, m) == f.events + ahead <==> given || Harmless(s, split, f))
      && (!given ==> ahead == if split then Passed(s, f.at) + RemainingAt(s, f.at) else [])
  {
    var f := Fill(stepper, |s.segments|, m, room, left, tick, None);
    FillStands(s, LedgerOf(s), stepper, m, room, left, tick, None);
    LostIfOneIs(stepper, |s.segments|, m, room, left, tick, None);
    NoNextStart(s, LedgerOf(s), stepper, split, m, room, left, tick);
    assert RemainingAt(s, m) == f.events + RemainingAt(s, f.at);
    if f.lost {
      FromTheStart(s, f.at);
      NothingBetween(f.events, Passed(s, f.at), RemainingAt(s, f.at));
      NothingAfter(f.events, RemainingAt(s, f.at));
    }
  }

  lemma NothingAfter(a: seq<Event>, rest: seq<Event>)
    ensures a + rest == a + [] <==> rest == []
  {
    assert |a + rest| == |a + []| + |rest|;
  }

  lemma NothingBetween(a: seq<Event>, b: seq<Event>, rest: seq<Event>)
    ensures a + rest == a + (b + rest) <==> b == []
  {
    assert b == [] ==> b + rest == rest;
    assert |a + (b + rest)| == |a + rest| + |b|;
  }

  /** What remains includes, as its last part, all of each later segment. */
  lemma {:induction false} LaterSegments(s: Service, seg: nat, pos: nat, later: nat) returns (before: seq<Event>)
    requires seg < later <= |s.segments|
    ensures Remaining(s, seg, pos) == before + Remaining(s, later, 0)
    decreases later - seg
  {
    var head := if pos <= |s.segments[seg]| then Found(s.segments[seg][pos..]) else [];
    if seg + 1 == later {
      before := head;
    } else {
      var between := LaterSegments(s, seg + 1, 0, later);
      before := head + between;
      Reassociate(head, between, Remaining(s, later, 0));
    }
  }

  /** Among the events that come again are those the lost page itself listed of that segment: its last ones, and theirs. */
  lemma ListedAgain(s: Service, m: Mark, stepper: Stepper, room: nat, left: nat, tick: nat) returns (before: seq<Event>, unlisted: seq<Event>)
    requires StepsOk(s, LedgerOf(s), stepper) && Resumable(s, m) && !NoneLost(stepper, |s.segments|, m, room, left, tick)
    ensures var f := Fill(stepper, |s.segments|, m, room, left, tick, None);
      var first := if f.at.seg == m.seg then PositionOf(s, m.seg, m.inner) else 0;
      && Resumable(s, f.at) && first <= PositionOf(s, f.at.seg, f.at.inner)
      && var listed := Found(s.segments[f.at.seg][first..PositionOf(s, f.at.seg, f.at.inner)]);
         f.events == before + listed && Passed(s, f.at) == unlisted + listed
  {
    var f := Fill(stepper, |s.segments|, m, room, left, tick, None);
    FillStands(s, LedgerOf(s), stepper, m, room, left, tick, None);
    LostIfOneIs(stepper, |s.segments|, m, room, left, tick, None);
    assert RemainingAt(s, m) == f.events + RemainingAt(s, f.at) && LeftAt(s, f.at) <= LeftAt(s, m);
    before, unlisted := SegmentListed(s, m, f.at, f.events);
  }

  /** Of the events on the way from one mark to another, those of the last segment come last. */
  lemma SegmentListed(s: Service, m: Mark, at: Mark, events: seq<Event>) returns (before: seq<Event>, unlisted: seq<Event>)
    requires Resumable(s, m) && Resumable(s, at) && m.seg <= at.seg
    requires RemainingAt(s, m) == events + RemainingAt(s, at) && LeftAt(s, at) <= LeftAt(s, m)
    ensures var first, pos := if at.seg == m.seg then PositionOf(s, m.seg, m.inner) else 0, PositionOf(s, at.seg, at.inner);
      && first <= pos
      && events == before + Found(s.segments[at.seg][first..pos]) && Passed(s, at) == unlisted + Found(s.segments[at.seg][first..pos])
  {
    if at.seg == m.seg {
      before := [];
      unlisted := SameSegmentListed(s, m, at, events);
      assert [] + events == events;
    } else {
      unlisted := [];
      before := LaterSegmentListed(s, m, at, events);
      assert [] + Passed(s, at) == Passed(s, at);
    }
  }

  lemma SameSegmentListed(s: Service, m: Mark, at: Mark, events: seq<Event>) returns (unlisted: seq<Event>)
    requires Resumable(s, m) && Resumable(s, at) && m.seg == at.seg
    requires RemainingAt(s, m) == events + RemainingAt(s, at) && LeftAt(s, at) <= LeftAt(s, m)
    ensures var first, pos := PositionOf(s, m.seg, m.inner), PositionOf(s, at.seg, at.inner);
      first <= pos && events == Found(s.segments[at.seg][first..pos]) && Passed(s, at) == unlisted + Found(s.segments[at.seg][first..pos])
  {
    var rows, first, pos := s.segments[at.seg], PositionOf(s, m.seg, m.inner), PositionOf(s, at.seg, at.inner);
    NoFurther(s, at.seg, first, pos);
    ReadTakes(s, at.seg, first, pos);
    Cancel(events, Found(rows[first..pos]), RemainingAt(s, at));
    FoundInTwo(rows, first, pos);
    unlisted := Found(rows[..first]);
  }

  /** With no more left than from row `first`, the service is not before it. */
  lemma NoFurther(s: Service, seg: nat, first: nat, pos: nat)
    requires seg < |s.segments| && first <= |s.segments[seg]| && pos <= |s.segments[seg]| && Left(s, seg, pos) <= Left(s, seg, first)
    ensures first <= pos
  {
  }

  lemma FoundInTwo(rows: seq<Row>, first: nat, pos: nat)
    requires first <= pos <= |rows|
    ensures Found(rows[..pos]) == Found(rows[..first]) + Found(rows[first..pos])
  {
    assert rows[..pos] == rows[..first] + rows[first..pos];
    FoundAppend(rows[..first], rows[first..pos]);
  }

  lemma LaterSegmentListed(s: Service, m: Mark, at: Mark, events: seq<Event>) returns (before: seq<Event>)
    requires Resumable(s, m) && Resumable(s, at) && m.seg < at.seg && RemainingAt(s, m) == events + RemainingAt(s, at)
    ensures var pos := PositionOf(s, at.seg, at.inner);
      events == before + Found(s.segments[at.seg][0..pos]) && Passed(s, at) == Found(s.segments[at.seg][0..pos])
  {
    var rows, pos := s.segments[at.seg], PositionOf(s, at.seg, at.inner);
    assert rows[0..pos] == rows[..pos];
    before := LaterSegments(s, m.seg, PositionOf(s, m.seg, m.inner), at.seg);
    FromTheStart(s, at);
    Reassociate(before, Passed(s, at), RemainingAt(s, at));
    Cancel(events, before + Passed(s, at), RemainingAt(s, at));
  }

  lemma Cancel(a: seq<Event>, b: seq<Event>, rest: seq<Event>)
    requires a + rest == b + rest
    ensures a == b
  {
    assert |a| == |b|;
    assert a == (a + rest)[..|a|] && b == (b + rest)[..|a|];
  }

  // ---------------------------------------------------------------------------
  // Following the pages
  // ---------------------------------------------------------------------------

  /** The page of each call, from a mark and a moment. */
  type Pager = (Mark, nat, nat) -> Filled

  function PagerOf(stepper: Stepper, segments: nat, sizes: nat -> nat, maxReads: nat): Pager {
    (m: Mark, call: nat, tick: nat) => Fill(stepper, segments, m, sizes(call), maxReads, tick, None)
  }

  /** The events of all pages listed, where the next call starts if there is a cursor for it, and where the service has got to. */
  datatype Listing = Listing(events: seq<Event>, next: Option<Mark>, at: Mark)

  function Before(events: seq<Event>, rest: Listing): Listing {
    rest.(events := events + rest.events)
  }

  /** Up to `calls` pages from `m`, each started with the cursor of the page before it, while there is one. */
  function Follow(pager: Pager, split: bool, segments: nat, m: Mark, call: nat, calls: nat, tick: nat): Listing
    decreases calls
  {
    if calls == 0 then Listing([], Some(m), m)
    else
      var f := pager(m, call, tick);
      var next := NextStart(split, segments, f);
      if next.None? then Listing(f.events, None, f.at)
      else Before(f.events, Follow(pager, split, segments, next.value, call + 1, calls - 1, tick + f.readCount))
  }

  /** How many events come again because of lost pages among these calls; `passed` counts those passed in the segment at hand. */
  function Repeated(passed: Mark -> nat, pager: Pager, split: bool, segments: nat, m: Mark, call: nat, calls: nat, tick: nat): nat
    decreases calls
  {
    if calls == 0 then 0
    else
      var f := pager(m, call, tick);
      var next := NextStart(split, segments, f);
      if next.None? then 0
      else (if f.lost then passed(f.at) else 0) + Repeated(passed, pager, split, segments, next.value, call + 1, calls - 1, tick + f.readCount)
  }

  /** No page among these calls is lost. */
  predicate AllGiven(pager: Pager, split: bool, segments: nat, m: Mark, call: nat, calls: nat, tick: nat)
    decreases calls
  {
    calls == 0
    || var f := pager(m, call, tick);
       var next := NextStart(split, segments, f);
       !f.lost && (next.None? || AllGiven(pager, split, segments, next.value, call + 1, calls - 1, tick + f.readCount))
  }

  /** What one page makes of what remained. */
  ghost predicate PageOk(s: Service, v: Ledger, passed: Mark -> nat, split: bool, m: Mark, f: Filled) {
    var next := NextStart(split, |s.segments|, f);
    && v.rest(m) == f.events + v.rest(f.at)
    && (f.lost ==> (next.Some? <==> split))
    && (next.None? && !f.lost ==> v.rest(f.at) == [])
    && (next.Some? ==>
          && Resumable(s, next.value)
          && |v.rest(next.value)| == |v.rest(f.at)| + (if f.lost then passed(f.at) else 0)
          && (!f.lost || passed(f.at) == 0 ==> v.rest(next.value) == v.rest(f.at))
          && (Advances(s) && !f.lost ==> v.left(next.value) < v.left(m)))
  }

  ghost predicate PagesOk(s: Service, v: Ledger, passed: Mark -> nat, split: bool, pager: Pager) {
    && (forall m: Mark :: Resumable(s, m) ==> v.left(m) > 0)
    && (forall m, call, tick :: Resumable(s, m) ==> PageOk(s, v, passed, split, m, pager(m, call, tick)))
  }

  /** Where the listing stands: at the start of the next call, or where the last page has got to. */
  function StandsAt(all: Listing): Mark {
    if all.next.Some? then all.next.value else all.at
  }

  /** What was listed and what is left exceed what remained at `m` by just the events listed again; with none of those they are what remained. */
  ghost predicate Counted(v: Ledger, m: Mark, all: Listing, again: nat) {
    && |all.events| + |v.rest(StandsAt(all))| == |v.rest(m)| + again
    && (again == 0 ==> v.rest(m) == all.events + v.rest(StandsAt(all)))
  }

  /** Every event listed again is counted. */
  lemma {:induction false} ListedCount(s: Service, v: Ledger, passed: Mark -> nat, pager: Pager, split: bool, m: Mark, call: nat, calls: nat, tick: nat)
    requires PagesOk(s, v, passed, split, pager) && Resumable(s, m)
    ensures Counted(v, m, Follow(pager, split, |s.segments|, m, call, calls, tick), Repeated(passed, pager, split, |s.segments|, m, call, calls, tick))
    decreases calls
  {
    if calls == 0 {
      NoneListed(v, m);
    } else {
      var f := pager(m, call, tick);
      assert PageOk(s, v, passed, split, m, f);
      var next := NextStart(split, |s.segments|, f);
      if next.Some? {
        ListedCount(s, v, passed, pager, split, next.value, call + 1, calls - 1, tick + f.readCount);
        ListedOne(s, v, passed, split, m, f, Follow(pager, split, |s.segments|, next.value, call + 1, calls - 1, tick + f.readCount),
                  Repeated(passed, pager, split, |s.segments|, next.value, call + 1, calls - 1, tick + f.readCount));
      }
    }
  }

  lemma NoneListed(v: Ledger, m: Mark)
    ensures Counted(v, m, Listing([], Some(m), m), 0)
  {
    assert [] + v.rest(m) == v.rest(m);
  }

  /** One page before a listing that is counted. */
  lemma ListedOne(s: Service, v: Ledger, passed: Mark -> nat, split: bool, m: Mark, f: Filled, rest: Listing, again: nat)
    requires PageOk(s, v, passed, split, m, f) && NextStart(split, |s.segments|, f).Some?
    requires Counted(v, NextStart(split, |s.segments|, f).value, rest, again)
    ensures Counted(v, m, Before(f.events, rest), (if f.lost then passed(f.at) else 0) + again)
  {
    Reassociate(f.events, rest.events, v.rest(StandsAt(rest)));
  }

  /** Nothing comes again over a single connection, and nothing is left behind in a split window. */
  lemma {:induction false} OneOrTheOther(s: Service, v: Ledger, passed: Mark -> nat, pager: Pager, split: bool, m: Mark, call: nat, calls: nat, tick: nat)
    requires PagesOk(s, v, passed, split, pager) && Resumable(s, m)
    ensures !split ==> Repeated(passed, pager, split, |s.segments|, m, call, calls, tick) == 0
    ensures var all := Follow(pager, split, |s.segments|, m, call, calls, tick); split && all.next.None? ==> v.rest(all.at) == []
    decreases calls
  {
    if calls > 0 {
      var f := pager(m, call, tick);
      assert PageOk(s, v, passed, split, m, f);
      var next := NextStart(split, |s.segments|, f);
      if next.Some? {
        OneOrTheOther(s, v, passed, pager, split, next.value, call + 1, calls - 1, tick + f.readCount);
      }
    }
  }

  /** With no page lost nothing comes again, and there is a cursor to go on with until nothing is left. */
  lemma {:induction false} GivenLosesNothing(s: Service, v: Ledger, passed: Mark -> nat, pager: Pager, split: bool, m: Mark, call: nat, calls: nat, tick: nat)
    requires PagesOk(s, v, passed, split, pager) && Resumable(s, m)
    requires AllGiven(pager, split, |s.segments|, m, call, calls, tick)
    ensures Repeated(passed, pager, split, |s.segments|, m, call, calls, tick) == 0
    ensures var all := Follow(pager, split, |s.segments|, m, call, calls, tick);
      && (all.next.None? ==> v.rest(all.at) == [])
      && (Advances(s) && calls >= v.left(m) ==> all.next.None?)
    decreases calls
  {
    if calls > 0 {
      var f := pager(m, call, tick);
      assert PageOk(s, v, passed, split, m, f);
      var next := NextStart(split, |s.segments|, f);
      if next.Some? {
        GivenLosesNothing(s, v, passed, pager, split, next.value, call + 1, calls - 1, tick + f.readCount);
      }
    }
  }

  // ----- For the pages of a service -----

  function PassedIn(s: Service): Mark -> nat {
    (at: Mark) => |Passed(s, at)|
  }

  lemma ServicePage(s: Service, stepper: Stepper, split: bool, m: Mark, room: nat, left: nat, tick: nat)
    requires StepsOk(s, LedgerOf(s), stepper) && Resumable(s, m) && room >= 1 && left >= 1 && (split || |s.segments| == 1)
    ensures PageOk(s, LedgerOf(s), PassedIn(s), split, m, Fill(stepper, |s.segments|, m, room, left, tick, None))
  {
    var f := Fill(stepper, |s.segments|, m, room, left, tick, None);
    FillStands(s, LedgerOf(s), stepper, m, room, left, tick, None);
    NoNextStart(s, LedgerOf(s), stepper, split, m, room, left, tick);
    if f.lost {
      FromTheStart(s, f.at);
      if Passed(s, f.at) == [] {
        assert [] + RemainingAt(s, f.at) == RemainingAt(s, f.at);
      }
    }
  }

  lemma ServicePages(s: Service, gives: nat -> bool, keepsEnd: bool, split: bool, sizes: nat -> nat, maxReads: nat)
    requires Honest(s) && maxReads >= 1 && (forall call :: sizes(call) >= 1) && (split || |s.segments| == 1)
    ensures PagesOk(s, LedgerOf(s), PassedIn(s), split, PagerOf(StepperOf(s, gives, keepsEnd), |s.segments|, sizes, maxReads))
  {
    ServiceSteps(s, gives, keepsEnd);
    var pager := PagerOf(StepperOf(s, gives, keepsEnd), |s.segments|, sizes, maxReads);
    forall m, call, tick | Resumable(s, m) ensures PageOk(s, LedgerOf(s), PassedIn(s), split, m, pager(m, call, tick)) {
      ServicePage(s, StepperOf(s, gives, keepsEnd), split, m, sizes(call), maxReads, tick);
    }
  }

  /**
   * Cursors followed until there is none list every event that remained, once
   * and in order, if and only if no event came again and none was left behind.
   * In a split window none is ever left behind, and those come again that lost
   * pages had passed in their segments. Over a single connection none ever
   * comes again, and those are left behind that a lost page had not got to.
   * If every read that claims another page gives its cursor neither happens,
   * and, with cursors that advance, there is a last page.
   */
  lemma EachEventOnce(s: Service, gives: nat -> bool, keepsEnd: bool, split: bool, sizes: nat -> nat, maxReads: nat, m: Mark, calls: nat, tick: nat)
    requires Honest(s) && maxReads >= 1 && (forall call :: sizes(call) >= 1) && Resumable(s, m) && (split || |s.segments| == 1)
    ensures var pager := PagerOf(StepperOf(s, gives, keepsEnd), |s.segments|, sizes, maxReads);
      var all := Follow(pager, split, |s.segments|, m, 0, calls, tick);
      var again := Repeated(PassedIn(s), pager, split, |s.segments|, m, 0, calls, tick);
      var given := AllGiven(pager, split, |s.segments|, m, 0, calls, tick);
      && (all.next.None? ==> (all.events == RemainingAt(s, m) <==> again == 0 && RemainingAt(s, all.at) == []))
      && (split && all.next.None? ==> RemainingAt(s, all.at) == [])
      && (!split ==> again == 0 && all.events <= RemainingAt(s, m))
      && (given ==> again == 0 && (all.next.None? ==> RemainingAt(s, all.at) == []))
      && (given && Advances(s) && calls >= LeftAt(s, m) ==> all.next.None?)
  {
    var pager := PagerOf(StepperOf(s, gives, keepsEnd), |s.segments|, sizes, maxReads);
    ServicePages(s, gives, keepsEnd, split, sizes, maxReads);
    ListedCount(s, LedgerOf(s), PassedIn(s), pager, split, m, 0, calls, tick);
    OneOrTheOther(s, LedgerOf(s), PassedIn(s), pager, split, m, 0, calls, tick);
    var all := Follow(pager, split, |s.segments|, m, 0, calls, tick);
    NothingAfter(all.events, RemainingAt(s, StandsAt(all)));
    assert all.events + [] == all.events;
    if AllGiven(pager, split, |s.segments|, m, 0, calls, tick) {
      GivenLosesNothing(s, LedgerOf(s), PassedIn(s), pager, split, m, 0, calls, tick);
    }
  }

  // ----- The calls themselves -----

  /** The cursor is one of the service's, or none, and names `m`. */
  ghost predicate Names(s: Service, number: Numeral, split: bool, cursor: Option<string>, m: Mark) {
    PageStart(number, split, cursor) == LooseMark(m.seg, m.inner) && Resumable(s, m)
  }

  /** What is listed in all, when `events` are and, unless that is over, `calls` more calls from `m` are to come. */
  ghost predicate Following(whole: Listing, pager: Pager, split: bool, segments: nat, events: seq<Event>, over: bool, m: Mark, call: nat, calls: nat, tick: nat) {
    if over then whole.next.None? && whole.events == events
    else whole == Before(events, Follow(pager, split, segments, m, call, calls, tick))
  }

  lemma FollowingStarts(pager: Pager, split: bool, segments: nat, m: Mark, calls: nat, tick: nat)
    ensures Following(Follow(pager, split, segments, m, 0, calls, tick), pager, split, segments, [], false, m, 0, calls, tick)
  {
    var whole := Follow(pager, split, segments, m, 0, calls, tick);
    assert [] + whole.events == whole.events;
  }

  lemma FollowingMore(whole: Listing, pager: Pager, split: bool, segments: nat, events: seq<Event>, m: Mark, call: nat, calls: nat, tick: nat)
    requires calls > 0 && Following(whole, pager, split, segments, events, false, m, call, calls, tick)
    ensures var f := pager(m, call, tick);
      var next := NextStart(split, segments, f);
      Following(whole, pager, split, segments, events + f.events, next.None?, if next.Some? then next.value else m, call + 1, calls - 1, tick + f.readCount)
  {
    var f := pager(m, call, tick);
    var next := NextStart(split, segments, f);
    if next.Some? {
      var rest := Follow(pager, split, segments, next.value, call + 1, calls - 1, tick + f.readCount);
      assert events + (f.events + rest.events) == events + f.events + rest.events;
    }
  }

  lemma FollowingEnds(whole: Listing, pager: Pager, split: bool, segments: nat, events: seq<Event>, over: bool, m: Mark, call: nat, calls: nat, tick: nat)
    requires Following(whole, pager, split, segments, events, over, m, call, calls, tick) && (over || calls == 0)
    ensures whole.events == events && (whole.next.None? <==> over)
  {
    assert events + [] == events;
  }

  /** Where the loop below stands. */
  ghost predicate Stood(s: Service, number: Numeral, split: bool, pager: Pager, whole: Listing,
                        events: seq<Event>, over: bool, cursor: Option<string>, m: Mark, call: nat, calls: nat, tick: nat) {
    && Following(whole, pager, split, |s.segments|, events, over, m, call, calls, tick)
    && (!over ==> Names(s, number, split, cursor, m))
  }

  /** The pager's pages are those of the service's calls. */
  ghost predicate Pages(s: Service, gives: nat -> bool, keepsEnd: bool, sizes: nat -> nat, maxReads: nat, pager: Pager) {
    forall m, call, tick {:trigger Fill(StepperOf(s, gives, keepsEnd), |s.segments|, m, sizes(call), maxReads, tick, None)} ::
      pager(m, call, tick) == Fill(StepperOf(s, gives, keepsEnd), |s.segments|, m, sizes(call), maxReads, tick, None)
  }

  /** One call, from the cursor that names `m`. */
  method CallOne(s: Service, number: Numeral, split: bool, keepsEnd: bool, gives: nat -> bool, sizes: nat -> nat, maxReads: nat, ghost pager: Pager,
                 cursor: Option<string>, ghost m: Mark, call: nat, tick: nat)
    returns (events: seq<Event>, readCount: nat, over: bool, cursor': Option<string>)
    requires Honest(s) && ReadsDecimals(number) && (split || |s.segments| == 1) && sizes(call) >= 1 && maxReads >= 1
    requires Pages(s, gives, keepsEnd, sizes, maxReads, pager) && Names(s, number, split, cursor, m)
    ensures var f := pager(m, call, tick);
      var next := NextStart(split, |s.segments|, f);
      && events == f.events && readCount == f.readCount && (over <==> next.None?)
      && (next.Some? ==> Names(s, number, split, cursor', next.value))
  {
    var page := FillPage(s, number, split, keepsEnd, gives, cursor, sizes(call), maxReads, tick);
    events, readCount, cursor' := page.value.events, page.value.readCount, page.value.nextCursor;
    over := !page.value.hasNextPage || cursor'.None?;
  }

  /** One turn of the loop below. */
  method FollowOne(s: Service, number: Numeral, split: bool, keepsEnd: bool, gives: nat -> bool, sizes: nat -> nat, maxReads: nat, ghost pager: Pager,
                   ghost whole: Listing, events: seq<Event>, cursor: Option<string>, ghost m: Mark, call: nat, ghost calls: nat, tick: nat)
    returns (events': seq<Event>, over: bool, cursor': Option<string>, ghost m': Mark, tick': nat)
    requires Honest(s) && ReadsDecimals(number) && (split || |s.segments| == 1) && sizes(call) >= 1 && maxReads >= 1 && calls > 0
    requires Pages(s, gives, keepsEnd, sizes, maxReads, pager) && Stood(s, number, split, pager, whole, events, false, cursor, m, call, calls, tick)
    ensures Stood(s, number, split, pager, whole, events', over, cursor', m', call + 1, calls - 1, tick')
  {
    FollowingMore(whole, pager, split, |s.segments|, events, m, call, calls, tick);
    ghost var next := NextStart(split, |s.segments|, pager(m, call, tick));
    var nodes, readCount;
    nodes, readCount, over, cursor' := CallOne(s, number, split, keepsEnd, gives, sizes, maxReads, pager, cursor, m, call, tick);
    events', tick' := events + nodes, tick + readCount;
    m' := if next.Some? then next.value else m;
  }

  /** A caller that goes on with `nextCursor` while a page has a next page and a cursor for it lists what `Follow` says. */
  method FollowPages(s: Service, number: Numeral, split: bool, keepsEnd: bool, gives: nat -> bool, sizes: nat -> nat, maxReads: nat, ghost pager: Pager,
                     calls: nat, tick: nat)
    returns (events: seq<Event>, over: bool)
    requires Honest(s) && ReadsDecimals(number) && |s.segments| >= 1 && (split || |s.segments| == 1)
    requires maxReads >= 1 && (forall call :: sizes(call) >= 1) && Pages(s, gives, keepsEnd, sizes, maxReads, pager)
    ensures var all := Follow(pager, split, |s.segments|, Mark(0, None), 0, calls, tick);
      events == all.events && (over <==> all.next.None?)
  {
    ghost var whole, m := Follow(pager, split, |s.segments|, Mark(0, None), 0, calls, tick), Mark(0, None);
    var cursor: Option<string> := None;
    var call, clock: nat := 0, tick;
    events, over := [], false;
    FollowingStarts(pager, split, |s.segments|, m, calls, tick);
    while call < calls && !over
      invariant call <= calls && Stood(s, number, split, pager, whole, events, over, cursor, m, call, calls - call, clock)
      decreases calls - call
    {
      events, over, cursor, m, clock := FollowOne(s, number, split, keepsEnd, gives, sizes, maxReads, pager, whole, events, cursor, m, call, calls - call, clock);
      call := call + 1;
    }
    FollowingEnds(whole, pager, split, |s.segments|, events, over, m, call, calls - call, clock);
  }

  /** The pages that `EachEventOnce` speaks of are such pages. */
  lemma PagesOfService(s: Service, gives: nat -> bool, keepsEnd: bool, sizes: nat -> nat, maxReads: nat)
    ensures Pages(s, gives, keepsEnd, sizes, maxReads, PagerOf(StepperOf(s, gives, keepsEnd), |s.segments|, sizes, maxReads))
  {
  }

  // ---------------------------------------------------------------------------
  // An event listed twice, and one never listed
  // ---------------------------------------------------------------------------

  /** One row a read, and a cursor as long as the rows passed. */
  function Slowly(segments: seq<seq<Row>>): Service {
    Service(segments,
            (seg: nat, pos: nat, first: nat, tick: nat) => if seg < |segments| && pos < |segments[seg]| then pos + 1 else pos,
            (seg: nat, pos: nat, first: nat, tick: nat) => seg < |segments| && pos + 1 < |segments[seg]|,
            (seg: nat, pos: nat) => seq(pos + 1, i => 'x'),
            (seg: nat, text: string) => if text == "" then 0 else |text| - 1)
  }

  lemma SlowlyIsHonest(segments: seq<seq<Row>>)
    ensures Honest(Slowly(segments)) && Advances(Slowly(segments))
  {
    var s := Slowly(segments);
    forall seg: nat, pos: nat, first: nat, tick: nat | seg < |s.segments| ensures ReadOk(s, seg, pos, first, tick) {
      if pos < |segments[seg]| {
        var one := segments[seg][pos..pos + 1];
        assert one[1..] == [] && |Found(one)| <= 1;
      }
    }
  }

  /** The first read withholds its cursor, every other gives it. */
  function FirstWithheld(): nat -> bool {
    (tick: nat) => tick > 0
  }

  /** Calls for one event each. */
  function OneEach(s: Service, segments: nat): Pager {
    PagerOf(StepperOf(s, FirstWithheld(), false), segments, (call: nat) => 1, 10)
  }

  /**
   * Where the first read claims another page and withholds its cursor, two
   * calls for one event each, over a window of two segments, list the same one.
   */
  lemma AnEventListedTwice(a: Event, b: Event)
    ensures var s := Slowly([[Some(a), Some(b)], []]);
      && Honest(s) && Advances(s) && RemainingAt(s, Mark(0, None)) == [a, b]
      && Follow(OneEach(s, 2), true, 2, Mark(0, None), 0, 2, 0).events == [a, a]
  {
    var s, start := Slowly([[Some(a), Some(b)], []]), Mark(0, None);
    SlowlyIsHonest([[Some(a), Some(b)], []]);
    SlowlyLeft(a, b);
    SlowlyStep(a, b);
    var stepper := StepperOf(s, FirstWithheld(), false);
    var first, second := OneEach(s, 2)(start, 0, 0), OneEach(s, 2)(start, 1, 1);
    assert first == Fill(stepper, 2, start, 1, 10, 0, None) && first.events == [a] && first.mark == start && first.readCount == 1;
    assert second == Fill(stepper, 2, start, 1, 10, 1, None) && second.events == [a] + [];
  }

  lemma SlowlyLeft(a: Event, b: Event)
    ensures RemainingAt(Slowly([[Some(a), Some(b)], []]), Mark(0, None)) == [a, b]
  {
    var rows: seq<Row> := [Some(a), Some(b)];
    var s := Slowly([rows, []]);
    assert rows[0..] == rows && rows[1..] == [Some(b)] && rows[1..][1..] == [];
    assert Found(rows[1..]) == [b] + [];
    assert Found(rows) == [a] + [b];
    assert s.segments[1][0..] == [] && Remaining(s, 2, 0) == [];
    assert Remaining(s, 1, 0) == [] + [];
    assert Remaining(s, 0, 0) == [a, b] + [];
  }

  lemma SlowlyStep(a: Event, b: Event)
    ensures var s := Slowly([[Some(a), Some(b)], []]);
      var stepper, past := StepperOf(s, FirstWithheld(), false), Mark(0, Some(s.cursor(0, 1)));
      stepper(Mark(0, None), 1, 0) == Lost([a], past) && stepper(Mark(0, None), 1, 1) == On([a], past, false, None)
  {
    var rows: seq<Row> := [Some(a), Some(b)];
    assert rows[0..1] == [Some(a)] && rows[0..1][1..] == [];
    assert Found(rows[0..1]) == [a] + [];
  }

  /**
   * Over a single connection whose first read passes a row without an event
   * and withholds its cursor, there is no second call, and the event behind
   * that row is never listed.
   */
  lemma AnEventNeverListed(a: Event, calls: nat)
    requires calls >= 1
    ensures var s := Slowly([[None, Some(a)]]);
      && Honest(s) && Advances(s) && RemainingAt(s, Mark(0, None)) == [a]
      && var all := Follow(OneEach(s, 1), false, 1, Mark(0, None), 0, calls, 0); all.next.None? && all.events == []
  {
    var rows: seq<Row> := [None, Some(a)];
    var s, start := Slowly([rows]), Mark(0, None);
    SlowlyIsHonest([rows]);
    assert rows[0..] == rows && rows[1..] == [Some(a)] && rows[1..][1..] == [] && Found(rows[1..]) == [a] + [];
    assert Remaining(s, 1, 0) == [] && Remaining(s, 0, 0) == [a] + [];
    var stepper := StepperOf(s, FirstWithheld(), false);
    assert rows[0..1] == [None] && rows[0..1][1..] == [] && Found(rows[0..1]) == [];
    assert stepper(start, 1, 0).Lost?;
    var f := OneEach(s, 1)(start, 0, 0);
    assert f == Fill(stepper, 1, start, 1, 10, 0, None) && f.mark == start && f.events == [];
  }
}
