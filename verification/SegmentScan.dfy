/** Scans over the segments of an event window. */
module SegmentScan {
  import opened Wrappers

  // ---------------------------------------------------------------------------
  // The service
  // ---------------------------------------------------------------------------

  datatype Event = Event(kind: Option<string>, sender: Option<string>, payload: nat)

  /** One row the service passes over: an event the filter matches, or nothing. */
  type Row = Option<Event>

  datatype Page = Page(nodes: seq<Event>, hasNextPage: bool, endCursor: Option<string>)

  /**
   * The event connection of each segment, its rows in reading order. How far a
   * read goes, and whether it claims another page, may differ from read to read
   * (`tick`), and pages may be short or empty.
   */
  datatype Service = Service(
    segments: seq<seq<Row>>,
    stop: (nat, nat, nat, nat) -> nat,
    more: (nat, nat, nat, nat) -> bool,
    cursor: (nat, nat) -> string,
    position: (nat, string) -> nat)

  function Found(rows: seq<Row>): seq<Event> {
    if rows == [] then []
    else if rows[0].None? then Found(rows[1..])
    else [rows[0].value] + Found(rows[1..])
  }

  /** One read of segment `seg` from row `pos`. */
  ghost predicate ReadOk(s: Service, seg: nat, pos: nat, first: nat, tick: nat)
    requires seg < |s.segments|
  {
    var rows, stop, more := s.segments[seg], s.stop(seg, pos, first, tick), s.more(seg, pos, first, tick);
    pos <= |rows| && first >= 1 ==>
      && pos <= stop <= |rows|
      && |Found(rows[pos..stop])| <= first
      && (stop < |rows| ==> more)
  }

  /** Reads stay in their segment, return no more than asked, and claim another page whenever rows are left. */
  ghost predicate Honest(s: Service) {
    && (forall seg: nat, pos: nat, first: nat, tick: nat :: seg < |s.segments| ==> ReadOk(s, seg, pos, first, tick))
    && (forall seg: nat, pos: nat :: s.cursor(seg, pos) != "" && s.position(seg, s.cursor(seg, pos)) == pos)
  }

  /** Every read gives its page's end cursor. */
  ghost predicate Gives(gives: nat -> bool) {
    forall t: nat :: gives(t)
  }

  /** A read that claims another page has moved its cursor. */
  ghost predicate Advances(s: Service) {
    forall seg: nat, pos: nat, first: nat, tick: nat :: s.more(seg, pos, first, tick) ==> s.stop(seg, pos, first, tick) > pos
  }

  function PositionOf(s: Service, seg: nat, after: Option<string>): nat {
    if after.None? then 0 else s.position(seg, after.value)
  }

  /** What the service answers a page request with; `given` says whether it gives the page's end cursor. */
  function ReadPage(s: Service, seg: nat, after: Option<string>, first: nat, tick: nat, given: bool): Page
    requires seg < |s.segments| && PositionOf(s, seg, after) <= s.stop(seg, PositionOf(s, seg, after), first, tick) <= |s.segments[seg]|
  {
    var pos := PositionOf(s, seg, after);
    var stop := s.stop(seg, pos, first, tick);
    Page(Found(s.segments[seg][pos..stop]), s.more(seg, pos, first, tick), if given then Some(s.cursor(seg, stop)) else None)
  }

  // ---------------------------------------------------------------------------
  // What is left to read
  // ---------------------------------------------------------------------------

  /** The events from row `pos` of segment `seg` to the end of the last segment. */
  function Remaining(s: Service, seg: nat, pos: nat): seq<Event>
    decreases |s.segments| - seg
  {
    if seg >= |s.segments| then []
    else (if pos <= |s.segments[seg]| then Found(s.segments[seg][pos..]) else []) + Remaining(s, seg + 1, 0)
  }

  /** Rows and segment ends still ahead. */
  function Left(s: Service, seg: nat, pos: nat): nat
    decreases |s.segments| - seg
  {
    if seg >= |s.segments| then 0
    else 1 + (if pos <= |s.segments[seg]| then |s.segments[seg]| - pos else 0) + Left(s, seg + 1, 0)
  }

  lemma {:induction false} FoundAppend(a: seq<Row>, b: seq<Row>)
    ensures Found(a + b) == Found(a) + Found(b)
  {
    if a == [] {
      assert a + b == b;
    } else {
      assert (a + b)[1..] == a[1..] + b;
      FoundAppend(a[1..], b);
    }
  }

  /** A read takes its events off the front of what remains. */
  lemma ReadTakes(s: Service, seg: nat, pos: nat, stop: nat)
    requires seg < |s.segments| && pos <= stop <= |s.segments[seg]|
    ensures Remaining(s, seg, pos) == Found(s.segments[seg][pos..stop]) + Remaining(s, seg, stop)
    ensures stop == |s.segments[seg]| ==> Remaining(s, seg, stop) == Remaining(s, seg + 1, 0)
    ensures Left(s, seg, stop) == Left(s, seg, pos) - (stop - pos)
    ensures stop == |s.segments[seg]| ==> Left(s, seg, stop) == 1 + Left(s, seg + 1, 0)
  {
    var rows := s.segments[seg];
    FoundSplit(rows, pos, stop);
    Reassociate(Found(rows[pos..stop]), Found(rows[stop..]), Remaining(s, seg + 1, 0));
    if stop == |rows| {
      assert rows[stop..] == [] && [] + Remaining(s, seg + 1, 0) == Remaining(s, seg + 1, 0);
    }
  }

  lemma FoundSplit(rows: seq<Row>, pos: nat, stop: nat)
    requires pos <= stop <= |rows|
    ensures Found(rows[pos..]) == Found(rows[pos..stop]) + Found(rows[stop..])
  {
    assert rows[pos..] == rows[pos..stop] + rows[stop..];
    FoundAppend(rows[pos..stop], rows[stop..]);
  }

  lemma Reassociate(a: seq<Event>, b: seq<Event>, c: seq<Event>)
    ensures a + b + c == a + (b + c)
  {
  }

  /** A resume point: the segment, and the service's cursor in it, or its start. */
  datatype Mark = Mark(seg: nat, inner: Option<string>)

  /** A mark the service can resume from. */
  predicate Resumable(s: Service, m: Mark) {
    m.seg < |s.segments| && m.inner != Some("") && PositionOf(s, m.seg, m.inner) <= |s.segments[m.seg]|
  }

  function RemainingAt(s: Service, m: Mark): seq<Event> {
    Remaining(s, m.seg, PositionOf(s, m.seg, m.inner))
  }

  function LeftAt(s: Service, m: Mark): nat {
    Left(s, m.seg, PositionOf(s, m.seg, m.inner))
  }

  /** Where reading goes on after a page: at its end cursor, or at the start of the next segment. */
  function After(m: Mark, page: Page): Mark {
    if page.hasNextPage then Mark(m.seg, page.endCursor) else Mark(m.seg + 1, None)
  }

  /** A page within a segment: its events come off the front of what remains, and less is left if the cursor advanced. */
  lemma PageTakes(s: Service, m: Mark, first: nat, tick: nat, given: bool)
    requires Honest(s) && Resumable(s, m) && first >= 1
    ensures var pos := PositionOf(s, m.seg, m.inner); pos <= s.stop(m.seg, pos, first, tick) <= |s.segments[m.seg]|
    ensures var page := ReadPage(s, m.seg, m.inner, first, tick, given);
      && |page.nodes| <= first
      && (page.hasNextPage && given ==> Resumable(s, After(m, page)))
      && (page.hasNextPage ==> (page.endCursor.Some? <==> given))
      && (!page.hasNextPage || given ==>
            && RemainingAt(s, m) == page.nodes + RemainingAt(s, After(m, page))
            && LeftAt(s, After(m, page)) <= LeftAt(s, m)
            && (Advances(s) || !page.hasNextPage ==> LeftAt(s, After(m, page)) < LeftAt(s, m)))
  {
    var pos := PositionOf(s, m.seg, m.inner);
    assert ReadOk(s, m.seg, pos, first, tick);
    ReadTakes(s, m.seg, pos, s.stop(m.seg, pos, first, tick));
  }

  // ---------------------------------------------------------------------------
  // Cursors
  // ---------------------------------------------------------------------------

  function Digit(d: nat): char
    requires d < 10
  {
    "0123456789"[d]
  }

  /** `${n}`. */
  function Decimal(n: nat): (text: string)
    ensures text != [] && forall i :: 0 <= i < |text| ==> '0' <= text[i] <= '9'
  {
    if n < 10 then [Digit(n)] else Decimal(n / 10) + [Digit(n % 10)]
  }

  /** `Number` of a string that holds an integer, and nothing for one that does not. */
  type Numeral = string -> Option<int>

  ghost predicate ReadsDecimals(number: Numeral) {
    forall n: nat :: number(Decimal(n)) == Some(n)
  }

  function Encode(seg: nat, inner: Option<string>): string {
    Decimal(seg) + "|" + if inner.None? then "" else inner.value
  }

  /** `indexOf("|")`, or the length when there is none. */
  function Bar(cursor: string): (i: nat)
    ensures i <= |cursor| && (i < |cursor| ==> cursor[i] == '|') && forall j :: 0 <= j < i ==> cursor[j] != '|'
  {
    if cursor == [] || cursor[0] == '|' then 0 else 1 + Bar(cursor[1..])
  }

  function InnerOf(cursor: string, bar: nat): Option<string>
    requires bar < |cursor|
  {
    if cursor[bar + 1..] == "" then None else Some(cursor[bar + 1..])
  }

  /** The aggregate scan's decoding: none for a cursor that is not a continuation of this window. */
  function DecodeStrict(number: Numeral, cursor: string, segments: nat): Option<Mark> {
    var bar := Bar(cursor);
    if bar == |cursor| || bar < 1 then None
    else
      var n := number(cursor[..bar]);
      if n.None? || n.value < 0 || n.value >= segments then None else Some(Mark(n.value, InnerOf(cursor, bar)))
  }

  datatype LooseMark = LooseMark(seg: int, inner: Option<string>)

  /** The event page's decoding: without a bar, a cursor in the first segment; with a bad number, the first segment. */
  function DecodeLoose(number: Numeral, cursor: Option<string>): LooseMark {
    if cursor.None? || cursor.value == "" then LooseMark(0, None)
    else
      var bar := Bar(cursor.value);
      if bar == |cursor.value| then LooseMark(0, cursor)
      else
        var n := number(cursor.value[..bar]);
        LooseMark(if n.Some? then n.value else 0, InnerOf(cursor.value, bar))
  }

  /** A cursor is what stands before its first bar, and what stands behind it. */
  lemma BarAt(head: string, tail: string)
    requires '|' !in head
    ensures Bar(head + "|" + tail) == |head| && (head + "|" + tail)[..|head|] == head && (head + "|" + tail)[|head| + 1..] == tail
  {
    var cursor := head + "|" + tail;
    assert cursor[|head|] == '|';
    assert forall j :: 0 <= j < |head| ==> cursor[j] == head[j] && cursor[j] in head;
  }

  /**
   * Both decoders, on any text. Before the first bar stands the segment's
   * number and behind it the inner cursor, none when there is nothing. The
   * strict one refuses a text without a bar, and a number that is missing, no
   * integer or out of range. The loose one takes a text without a bar as a
   * cursor in the first segment, and what is no integer for the first.
   */
  lemma DecodedByParts(number: Numeral, head: string, tail: string, segments: nat)
    requires '|' !in head
    ensures var mark := if tail == "" then None else Some(tail);
      && DecodeStrict(number, head, segments).None?
      && DecodeLoose(number, Some(head)) == LooseMark(0, if head == "" then None else Some(head))
      && DecodeStrict(number, head + "|" + tail, segments)
         == (if head != "" && number(head).Some? && 0 <= number(head).value < segments then Some(Mark(number(head).value, mark)) else None)
      && DecodeLoose(number, Some(head + "|" + tail)) == LooseMark(if number(head).Some? then number(head).value else 0, mark)
  {
    BarAt(head, tail);
    assert Bar(head) == |head|;
  }

  lemma EncodeParts(seg: nat, inner: Option<string>)
    ensures var cursor := Encode(seg, inner);
      && 1 <= Bar(cursor) == |Decimal(seg)| < |cursor|
      && cursor[..Bar(cursor)] == Decimal(seg)
      && cursor[Bar(cursor) + 1..] == if inner.None? then "" else inner.value
  {
    var cursor, digits := Encode(seg, inner), Decimal(seg);
    assert cursor[|digits|] == '|';
    assert forall j :: 0 <= j < |digits| ==> cursor[j] == digits[j];
  }

  /** A resume point survives its cursor, whatever the service's own cursor holds; an empty one is the segment's start. */
  lemma CursorRoundTrip(number: Numeral, seg: nat, inner: Option<string>, segments: nat)
    requires ReadsDecimals(number) && inner != Some("")
    ensures DecodeLoose(number, Some(Encode(seg, inner))) == LooseMark(seg, inner)
    ensures seg < segments ==> DecodeStrict(number, Encode(seg, inner), segments) == Some(Mark(seg, inner))
    ensures seg >= segments ==> DecodeStrict(number, Encode(seg, inner), segments) == None
  {
    EncodeParts(seg, inner);
  }

  /** Two resume points never share a cursor. */
  lemma CursorsDiffer(number: Numeral, a: Mark, b: Mark)
    requires ReadsDecimals(number) && a.inner != Some("") && b.inner != Some("")
    ensures Encode(a.seg, a.inner) == Encode(b.seg, b.inner) ==> a == b
  {
    CursorRoundTrip(number, a.seg, a.inner, 0);
    CursorRoundTrip(number, b.seg, b.inner, 0);
  }

  // ---------------------------------------------------------------------------
  // Counting by type
  // ---------------------------------------------------------------------------

  function Count(events: seq<Event>, kind: string): nat {
    if events == [] then 0 else Count(events[1..], kind) + if events[0].kind == Some(kind) then 1 else 0
  }

  lemma {:induction false} CountAppend(a: seq<Event>, b: seq<Event>, kind: string)
    ensures Count(a + b, kind) == Count(a, kind) + Count(b, kind)
  {
    if a == [] {
      assert a + b == b;
    } else {
      assert (a + b)[1..] == a[1..] + b;
      CountAppend(a[1..], b, kind);
    }
  }

  /** `counts` holds exactly the kinds that occur, each with its number of events. */
  ghost predicate CountsAre(counts: map<string, nat>, events: seq<Event>) {
    forall kind :: (kind in counts <==> Count(events, kind) > 0) && (kind in counts ==> counts[kind] == Count(events, kind))
  }

  /** The loop over one page's nodes: each is counted under its type. */
  method CountPage(counts: map<string, nat>, ghost before: seq<Event>, nodes: seq<Event>) returns (counts': map<string, nat>)
    requires CountsAre(counts, before)
    ensures CountsAre(counts', before + nodes)
  {
    counts' := counts;
    assert before + nodes[..0] == before;
    for i := 0 to |nodes|
      invariant CountsAre(counts', before + nodes[..i])
    {
      var kind := nodes[i].kind;
      CountOne(counts', before + nodes[..i], nodes[i]);
      assert before + nodes[..i] + [nodes[i]] == before + nodes[..i + 1];
      if kind.Some? {
        counts' := counts'[kind.value := (if kind.value in counts' then counts'[kind.value] else 0) + 1];
      }
    }
    assert nodes[..|nodes|] == nodes;
  }

  lemma CountOne(counts: map<string, nat>, events: seq<Event>, event: Event)
    requires CountsAre(counts, events)
    ensures CountsAre(if event.kind.None? then counts
                      else counts[event.kind.value := (if event.kind.value in counts then counts[event.kind.value] else 0) + 1],
                      events + [event])
  {
    forall kind ensures Count(events + [event], kind) == Count(events, kind) + if event.kind == Some(kind) then 1 else 0 {
      CountAppend(events, [event], kind);
      assert [event][1..] == [] && Count([event], kind) == if event.kind == Some(kind) then 1 else 0;
    }
  }

  // ---------------------------------------------------------------------------
  // The aggregate scan
  // ---------------------------------------------------------------------------

  const PAGE_SIZE := 50

  datatype StopReason = Exhausted | CursorUnavailable | EventBudget | ReadBudget

  datatype Slice = Slice(events: seq<Event>, counts: map<string, nat>, pages: nat, nextCursor: Option<string>, hasNextPage: bool, stop: StopReason)

  /** Where a call starts: the beginning, also for an empty cursor, or the mark its cursor decodes to. */
  function StartOf(number: Numeral, cursor: Option<string>, segments: nat): Option<Mark> {
    if cursor.None? || cursor.value == "" then Some(Mark(0, None)) else DecodeStrict(number, cursor.value, segments)
  }

  /**
   * One call from mark `start`. What it returns and what its cursor resumes
   * are together what remained, within both budgets; with room in both, and
   * cursors that advance, it moves on; and it ends for exactly one stated
   * reason. Whichever that is, what it read is the first of what remained.
   */
  ghost predicate SliceOk(s: Service, number: Numeral, start: Mark, budget: nat, readBudget: nat, slice: Slice) {
    && |slice.events| <= budget && slice.pages <= readBudget
    && CountsAre(slice.counts, slice.events)
    && slice.events <= RemainingAt(s, start)
    && (slice.hasNextPage <==> !slice.stop.Exhausted?)
    && (slice.nextCursor.Some? <==> slice.stop.EventBudget? || slice.stop.ReadBudget?)
    && (slice.stop.Exhausted? ==> RemainingAt(s, start) == slice.events)
    && (slice.stop.EventBudget? ==> |slice.events| == budget)
    && (slice.stop.ReadBudget? ==> |slice.events| < budget && slice.pages == readBudget)
    && (slice.nextCursor.Some? ==>
          var next := DecodeStrict(number, slice.nextCursor.value, |s.segments|);
          && next.Some? && Resumable(s, next.value)
          && RemainingAt(s, start) == slice.events + RemainingAt(s, next.value)
          && (Advances(s) && budget >= 1 && readBudget >= 1 ==> LeftAt(s, next.value) < LeftAt(s, start)))
  }

  /** What a mark leaves to read: the events, and a measure of the work. */
  datatype Ledger = Ledger(rest: Mark -> seq<Event>, left: Mark -> nat)

  function LedgerOf(s: Service): Ledger {
    Ledger((m: Mark) => RemainingAt(s, m), (m: Mark) => LeftAt(s, m))
  }

  /** The ledger is that of the service. */
  ghost predicate Keeps(v: Ledger, s: Service) {
    && (forall m {:trigger RemainingAt(s, m)} :: v.rest(m) == RemainingAt(s, m))
    && (forall m {:trigger LeftAt(s, m)} :: v.left(m) == LeftAt(s, m))
  }

  lemma LedgerKeeps(s: Service)
    ensures Keeps(LedgerOf(s), s)
  {
  }

  /** The scan from `start` stands at `m`, with `events` read in `pages` reads. */
  ghost predicate Reached(s: Service, v: Ledger, start: Mark, m: Mark, events: seq<Event>, pages: nat) {
    && (m.seg < |s.segments| ==> Resumable(s, m))
    && v.rest(start) == events + v.rest(m)
    && v.left(m) <= v.left(start)
    && (Advances(s) ==> v.left(m) + pages <= v.left(start))
  }

  lemma ReachedStart(s: Service, v: Ledger, start: Mark)
    requires Resumable(s, start)
    ensures Reached(s, v, start, start, [], 0)
  {
    assert [] + v.rest(start) == v.rest(start);
  }

  lemma ReachedNext(s: Service, v: Ledger, start: Mark, m: Mark, events: seq<Event>, pages: nat, m': Mark, nodes: seq<Event>)
    requires Reached(s, v, start, m, events, pages)
    requires v.rest(m) == nodes + v.rest(m') && v.left(m') <= v.left(m)
    requires Advances(s) ==> v.left(m') < v.left(m)
    requires m'.seg < |s.segments| ==> Resumable(s, m')
    ensures Reached(s, v, start, m', events + nodes, pages + 1)
  {
    assert events + (nodes + v.rest(m')) == events + nodes + v.rest(m');
  }

  /** The cursor stands at the end of the segment: reading on from it gives only what comes later. */
  predicate AtEnd(s: Service, seg: nat, cursor: Option<string>) {
    seg < |s.segments| && cursor.Some? && PositionOf(s, seg, cursor) == |s.segments[seg]|
  }

  /** Where a read leaves the service, whether or not the page says so. */
  function Past(s: Service, m: Mark, first: nat, tick: nat): Mark {
    Mark(m.seg, Some(s.cursor(m.seg, s.stop(m.seg, PositionOf(s, m.seg, m.inner), first, tick))))
  }

  /** A read that claims another page, with its cursor or without: what it returned came off the front of what remained. */
  lemma PageTaken(s: Service, m: Mark, first: nat, tick: nat, given: bool)
    requires Honest(s) && Resumable(s, m) && first >= 1
    ensures var pos := PositionOf(s, m.seg, m.inner); pos <= s.stop(m.seg, pos, first, tick) <= |s.segments[m.seg]|
    ensures var page, past := ReadPage(s, m.seg, m.inner, first, tick, given), Past(s, m, first, tick);
      && Resumable(s, past) && PositionOf(s, past.seg, past.inner) == s.stop(m.seg, PositionOf(s, m.seg, m.inner), first, tick)
      && RemainingAt(s, m) == page.nodes + RemainingAt(s, past) && LeftAt(s, past) <= LeftAt(s, m)
      && (page.hasNextPage && Advances(s) ==> LeftAt(s, past) < LeftAt(s, m))
      && (page.hasNextPage && given ==> After(m, page) == past)
      && (!page.hasNextPage ==> PositionOf(s, past.seg, past.inner) == |s.segments[m.seg]|)
  {
    var pos := PositionOf(s, m.seg, m.inner);
    assert ReadOk(s, m.seg, pos, first, tick);
    var stop := s.stop(m.seg, pos, first, tick);
    assert s.position(m.seg, s.cursor(m.seg, stop)) == stop;
    ReadTakes(s, m.seg, pos, stop);
  }

  /** A page moved a scan on from `m` to `at`, which is the mark after it unless it gave no cursor. */
  ghost predicate Moved(s: Service, v: Ledger, m: Mark, page: Page, at: Mark) {
    && v.rest(m) == page.nodes + v.rest(at) && v.left(at) <= v.left(m) && (Advances(s) ==> v.left(at) < v.left(m))
    && (at.seg < |s.segments| ==> Resumable(s, at))
    && (!page.hasNextPage || page.endCursor.Some? ==> at == After(m, page))
  }

  lemma MovedWithin(s: Service, v: Ledger, m: Mark, first: nat, tick: nat, given: bool)
    requires Honest(s) && Keeps(v, s) && Resumable(s, m) && first >= 1
    requires var pos := PositionOf(s, m.seg, m.inner); pos <= s.stop(m.seg, pos, first, tick) <= |s.segments[m.seg]|
    requires ReadPage(s, m.seg, m.inner, first, tick, given).hasNextPage
    ensures Moved(s, v, m, ReadPage(s, m.seg, m.inner, first, tick, given), Past(s, m, first, tick))
  {
    PageTaken(s, m, first, tick, given);
  }

  lemma MovedPast(s: Service, v: Ledger, m: Mark, first: nat, tick: nat, given: bool)
    requires Honest(s) && Keeps(v, s) && Resumable(s, m) && first >= 1
    requires var pos := PositionOf(s, m.seg, m.inner); pos <= s.stop(m.seg, pos, first, tick) <= |s.segments[m.seg]|
    requires !ReadPage(s, m.seg, m.inner, first, tick, given).hasNextPage
    ensures Moved(s, v, m, ReadPage(s, m.seg, m.inner, first, tick, given), Mark(m.seg + 1, None))
  {
    PageTakes(s, m, first, tick, given);
    assert After(m, ReadPage(s, m.seg, m.inner, first, tick, given)) == Mark(m.seg + 1, None);
  }

  lemma EndsBehindAll(s: Service, m: Mark, first: nat, tick: nat)
    requires Honest(s) && Resumable(s, m) && first >= 1
    requires var pos := PositionOf(s, m.seg, m.inner); pos <= s.stop(m.seg, pos, first, tick) <= |s.segments[m.seg]|
    requires !ReadPage(s, m.seg, m.inner, first, tick, true).hasNextPage
    ensures AtEnd(s, m.seg, ReadPage(s, m.seg, m.inner, first, tick, true).endCursor)
  {
    PageTaken(s, m, first, tick, true);
  }

  /** Where one read takes a scan. */
  lemma PageMoves(s: Service, v: Ledger, m: Mark, first: nat, tick: nat, given: bool) returns (at: Mark)
    requires Honest(s) && Keeps(v, s) && Resumable(s, m) && first >= 1
    ensures var pos := PositionOf(s, m.seg, m.inner); pos <= s.stop(m.seg, pos, first, tick) <= |s.segments[m.seg]|
    ensures var page := ReadPage(s, m.seg, m.inner, first, tick, given);
      && |page.nodes| <= first
      && Moved(s, v, m, page, at)
      && (page.hasNextPage && page.endCursor.None? ==> !given)
      && (page.hasNextPage ==> at == Past(s, m, first, tick))
      && (!page.hasNextPage && given ==> AtEnd(s, m.seg, page.endCursor))
  {
    var pos := PositionOf(s, m.seg, m.inner);
    assert ReadOk(s, m.seg, pos, first, tick);
    if ReadPage(s, m.seg, m.inner, first, tick, given).hasNextPage {
      at := Past(s, m, first, tick);
      MovedWithin(s, v, m, first, tick, given);
    } else {
      at := Mark(m.seg + 1, None);
      MovedPast(s, v, m, first, tick, given);
      if given {
        EndsBehindAll(s, m, first, tick);
      }
    }
  }

  /** Where the loop below stands: at `m`, unless a page gave no cursor; the reads have got to `at` in any case. */
  ghost predicate Scanned(s: Service, v: Ledger, gives: nat -> bool, start: Mark, budget: nat, readBudget: nat, tick: nat,
                          m: Mark, at: Mark, events: seq<Event>, pages: nat, cursorUnavailable: bool)
  {
    && |events| <= budget && pages <= readBudget && (pages == 0 ==> events == [])
    && (m.seg >= |s.segments| ==> m.inner.None? && !cursorUnavailable)
    && Reached(s, v, start, at, events, pages) && (!cursorUnavailable ==> at == m)
    && (cursorUnavailable ==> pages > 0 && !gives(tick + pages - 1))
  }

  lemma ScannedNothing(s: Service, v: Ledger, gives: nat -> bool, start: Mark, budget: nat, readBudget: nat, tick: nat)
    requires Resumable(s, start)
    ensures Scanned(s, v, gives, start, budget, readBudget, tick, start, start, [], 0, false) && CountsAre(map[], [])
  {
    ReachedStart(s, v, start);
  }

  /** Where a page leaves the loop, that took the service to `at`. */
  lemma ScannedNext(s: Service, v: Ledger, gives: nat -> bool, start: Mark, budget: nat, readBudget: nat, tick: nat,
                    m: Mark, events: seq<Event>, pages: nat, at: Mark, page: Page)
    requires Scanned(s, v, gives, start, budget, readBudget, tick, m, m, events, pages, false) && m.seg < |s.segments|
    requires |events| + |page.nodes| <= budget && pages < readBudget
    requires Moved(s, v, m, page, at)
    requires page.hasNextPage && page.endCursor.None? ==> !gives(tick + pages)
    ensures Scanned(s, v, gives, start, budget, readBudget, tick, After(m, page), at, events + page.nodes, pages + 1, page.hasNextPage && page.endCursor.None?)
  {
    ReachedNext(s, v, start, m, events, pages, at, page.nodes);
  }

  /** The request for one page. */
  method NextPage(s: Service, ghost v: Ledger, m: Mark, first: nat, tick: nat, given: bool) returns (page: Page, ghost at: Mark)
    requires Honest(s) && Keeps(v, s) && Resumable(s, m) && first >= 1
    ensures |page.nodes| <= first && Moved(s, v, m, page, at)
    ensures page.hasNextPage && page.endCursor.None? ==> !given
  {
    at := PageMoves(s, v, m, first, tick, given);
    page := ReadPage(s, m.seg, m.inner, first, tick, given);
  }

  /** One pass of the loop: the next page of the segment at hand. */
  method ScanPage(s: Service, ghost v: Ledger, gives: nat -> bool, ghost start: Mark, budget: nat, ghost readBudget: nat, tick: nat,
                  m: Mark, events: seq<Event>, counts: map<string, nat>, pages: nat)
    returns (m': Mark, ghost at: Mark, events': seq<Event>, counts': map<string, nat>, cursorUnavailable: bool)
    requires Honest(s) && Keeps(v, s) && Scanned(s, v, gives, start, budget, readBudget, tick, m, m, events, pages, false)
    requires m.seg < |s.segments| && |events| < budget && pages < readBudget && CountsAre(counts, events)
    ensures Scanned(s, v, gives, start, budget, readBudget, tick, m', at, events', pages + 1, cursorUnavailable)
    ensures CountsAre(counts', events')
  {
    var first := if PAGE_SIZE <= budget - |events| then PAGE_SIZE else budget - |events|;
    var page;
    page, at := NextPage(s, v, m, first, tick + pages, gives(tick + pages));
    ScannedNext(s, v, gives, start, budget, readBudget, tick, m, events, pages, at, page);
    counts' := CountPage(counts, events, page.nodes);
    events', m', cursorUnavailable := events + page.nodes, Mark(m.seg + 1, None), false;
    if page.hasNextPage {
      m' := Mark(m.seg, page.endCursor);
      cursorUnavailable := page.endCursor.None?;
    }
  }

  /** The loop: pages are read until the window ends, a budget is spent or a page gives no cursor. */
  method ScanPages(s: Service, ghost v: Ledger, gives: nat -> bool, start: Mark, budget: nat, readBudget: nat, tick: nat)
    returns (segIdx: nat, inner: Option<string>, events: seq<Event>, counts: map<string, nat>, pages: nat, cursorUnavailable: bool, ghost at: Mark)
    requires Honest(s) && Keeps(v, s) && Resumable(s, start)
    ensures Scanned(s, v, gives, start, budget, readBudget, tick, Mark(segIdx, inner), at, events, pages, cursorUnavailable)
    ensures CountsAre(counts, events)
    ensures segIdx < |s.segments| && !cursorUnavailable ==> |events| == budget || pages == readBudget
  {
    var m := start;
    events, counts, pages, cursorUnavailable, at := [], map[], 0, false, start;
    ScannedNothing(s, v, gives, start, budget, readBudget, tick);
    while m.seg < |s.segments| && |events| < budget && pages < readBudget && !cursorUnavailable
      invariant Scanned(s, v, gives, start, budget, readBudget, tick, m, at, events, pages, cursorUnavailable)
      invariant CountsAre(counts, events)
      decreases readBudget - pages
    {
      m, at, events, counts, cursorUnavailable := ScanPage(s, v, gives, start, budget, readBudget, tick, m, events, counts, pages);
      pages := pages + 1;
    }
    segIdx, inner := m.seg, m.inner;
  }

  method AggregateScan(s: Service, number: Numeral, gives: nat -> bool, cursor: Option<string>, budget: nat, readBudget: nat, tick: nat)
    returns (slice: Option<Slice>)
    requires Honest(s) && ReadsDecimals(number) && s.segments != []
    requires var start := StartOf(number, cursor, |s.segments|); start.Some? ==> Resumable(s, start.value)
    ensures slice.None? <==> StartOf(number, cursor, |s.segments|).None?
    ensures slice.Some? ==> SliceOk(s, number, StartOf(number, cursor, |s.segments|).value, budget, readBudget, slice.value)
    ensures slice.Some? && slice.value.stop.CursorUnavailable? ==> slice.value.pages > 0 && !gives(tick + slice.value.pages - 1)
  {
    var start := StartOf(number, cursor, |s.segments|);
    if start.None? {
      return None;
    }
    LedgerKeeps(s);
    var segIdx, inner, events, counts, pages, cursorUnavailable, at := ScanPages(s, LedgerOf(s), gives, start.value, budget, readBudget, tick);
    var hasNextPage := segIdx < |s.segments|;
    var next := if hasNextPage && !cursorUnavailable then Some(Encode(segIdx, inner)) else None;
    var stop := if !hasNextPage then Exhausted else if cursorUnavailable then CursorUnavailable
                else if |events| >= budget then EventBudget else ReadBudget;
    if next.Some? {
      CursorRoundTrip(number, segIdx, inner, |s.segments|);
    } else if !cursorUnavailable {
      assert RemainingAt(s, Mark(segIdx, inner)) == [] && events + [] == events;
    }
    slice := Some(Slice(events, counts, pages, next, hasNextPage, stop));
  }

  /** The slices so far and what remains at `m` are everything. */
  ghost predicate Followed(s: Service, slices: seq<Slice>, m: Mark) {
    Resumable(s, m) && Concat(slices) + RemainingAt(s, m) == Remaining(s, 0, 0)
  }

  lemma FollowOne(s: Service, number: Numeral, slices: seq<Slice>, m: Mark, budget: nat, readBudget: nat, slice: Slice)
    requires Followed(s, slices, m) && SliceOk(s, number, m, budget, readBudget, slice)
    requires Advances(s) && budget >= 1 && readBudget >= 1
    ensures slice.stop.Exhausted? ==> Concat(slices + [slice]) == Remaining(s, 0, 0)
    ensures slice.stop.CursorUnavailable? ==> Concat(slices + [slice]) <= Remaining(s, 0, 0)
    ensures slice.nextCursor.Some? ==>
      var next := DecodeStrict(number, slice.nextCursor.value, |s.segments|);
      next.Some? && Followed(s, slices + [slice], next.value) && LeftAt(s, next.value) < LeftAt(s, m)
  {
    ConcatOne(slices, slice);
    if slice.nextCursor.Some? {
      var next := DecodeStrict(number, slice.nextCursor.value, |s.segments|).value;
      Reassociate(Concat(slices), slice.events, RemainingAt(s, next));
    } else {
      var rest := RemainingAt(s, m)[|slice.events|..];
      assert RemainingAt(s, m) == slice.events + rest;
      Reassociate(Concat(slices), slice.events, rest);
    }
  }

  /**
   * Following the cursors from the start until there is none, with any budgets
   * of at least 1 and whatever the sizes of the service's pages. If the last
   * slice ends the window, the slices, one after another, are every event of
   * every segment, once and in order, and their counts by type add up to those
   * of one scan of everything. Otherwise a page gave no cursor, and they are
   * the first of those events.
   */
  method FollowCursors(s: Service, number: Numeral, gives: nat -> bool, budgets: nat -> nat, readBudgets: nat -> nat) returns (slices: seq<Slice>)
    requires Honest(s) && Advances(s) && ReadsDecimals(number) && s.segments != []
    requires forall call :: budgets(call) >= 1 && readBudgets(call) >= 1
    ensures slices != [] && CountsAllOk(slices)
    ensures var last := slices[|slices| - 1];
      if last.stop.Exhausted? then Concat(slices) == Remaining(s, 0, 0)
      else last.stop.CursorUnavailable? && Concat(slices) <= Remaining(s, 0, 0) && !Gives(gives)
    ensures forall kind :: SumCounts(slices, kind) == Count(Concat(slices), kind)
  {
    var cursor: Option<string> := None;
    var more := true;
    var tick: nat := 0;
    ghost var m := Mark(0, None);
    slices := [];
    assert [] + Remaining(s, 0, 0) == Remaining(s, 0, 0);
    while more
      invariant more ==> StartOf(number, cursor, |s.segments|) == Some(m) && Followed(s, slices, m)
      invariant !more ==> Ended(s, gives, slices)
      invariant CountsAllOk(slices)
      decreases more, if more then LeftAt(s, m) else 0
    {
      var budget, readBudget := budgets(|slices|), readBudgets(|slices|);
      var slice := AggregateScan(s, number, gives, cursor, budget, readBudget, tick);
      FollowOne(s, number, slices, m, budget, readBudget, slice.value);
      slices := slices + [slice.value];
      cursor := slice.value.nextCursor;
      more := cursor.Some?;
      tick := tick + slice.value.pages;
      if more {
        NoEmptyCursor(number, cursor.value, |s.segments|);
        m := DecodeStrict(number, cursor.value, |s.segments|).value;
      }
    }
    forall kind ensures SumCounts(slices, kind) == Count(Concat(slices), kind) {
      CountsAddUp(slices, kind);
    }
  }

  lemma NoEmptyCursor(number: Numeral, cursor: string, segments: nat)
    requires DecodeStrict(number, cursor, segments).Some?
    ensures cursor != ""
  {
  }

  /** The last slice ended the window, or a page of it gave no cursor. */
  ghost predicate Ended(s: Service, gives: nat -> bool, slices: seq<Slice>) {
    && slices != []
    && var last := slices[|slices| - 1];
       if last.stop.Exhausted? then Concat(slices) == Remaining(s, 0, 0)
       else last.stop.CursorUnavailable? && Concat(slices) <= Remaining(s, 0, 0) && !Gives(gives)
  }

  ghost predicate CountsAllOk(slices: seq<Slice>) {
    forall slice :: slice in slices ==> CountsAre(slice.counts, slice.events)
  }

  function Concat(slices: seq<Slice>): seq<Event> {
    if slices == [] then [] else Concat(slices[..|slices| - 1]) + slices[|slices| - 1].events
  }

  function SumCounts(slices: seq<Slice>, kind: string): nat {
    if slices == [] then 0
    else
      var last := slices[|slices| - 1];
      SumCounts(slices[..|slices| - 1], kind) + if kind in last.counts then last.counts[kind] else 0
  }

  lemma ConcatOne(slices: seq<Slice>, slice: Slice)
    ensures Concat(slices + [slice]) == Concat(slices) + slice.events
  {
    assert (slices + [slice])[..|slices|] == slices;
  }

  lemma {:induction false} CountsAddUp(slices: seq<Slice>, kind: string)
    requires CountsAllOk(slices)
    ensures SumCounts(slices, kind) == Count(Concat(slices), kind)
  {
    if slices != [] {
      var before, last := slices[..|slices| - 1], slices[|slices| - 1];
      CountsAddUp(before, kind);
      CountAppend(Concat(before), last.events, kind);
      assert last in slices;
    }
  }
}
