/** Finding tokens by walking the network's coin metadata, page by page, and the caches in front of the walk. */
module Discovery {
  import opened Wrappers

  type Cursor = string
  type Network = string


  datatype Token = Token(coinType: string, name: string, symbol: string, decimals: nat)

  /** A metadata object: none when it carries no coin type or symbol. */
  type Node = Option<Token>

  /** What the service answers for the page after a cursor. */
  datatype Read = Failed | Page(nodes: seq<Node>, hasNext: bool, endCursor: Option<Cursor>)
  type Service = Option<Cursor> -> Read

  datatype Report = Report(truncated: bool, scanned: nat, failed: bool, nextCursor: Option<Cursor>)

  /** The batches a walk handed over, and how it ended. */
  datatype Walk = Walk(batches: seq<seq<Token>>, report: Report)

  /** Whether a batch is what the walk was looking for. */
  type Wanted = seq<Token> -> bool

  const NOTHING: Wanted := (batch: seq<Token>) => false

  function Batch(nodes: seq<Node>): seq<Token> {
    if nodes == [] then []
    else Batch(nodes[..|nodes| - 1]) + match nodes[|nodes| - 1] case None => [] case Some(t) => [t]
  }

  /** The tokens are those of the nodes at `at`, in the page's order, and no other node carries one. */
  ghost predicate TokensAt(nodes: seq<Node>, batch: seq<Token>, at: seq<nat>) {
    && |at| == |batch| && (forall k :: 0 <= k < |at| ==> at[k] < |nodes| && nodes[at[k]] == Some(batch[k]))
    && (forall k, l :: 0 <= k < l < |at| ==> at[k] < at[l])
    && forall i: nat :: i < |nodes| && nodes[i].Some? ==> i in at
  }

  lemma OneNodeMore(nodes: seq<Node>, batch: seq<Token>, at: seq<nat>, node: Node)
    requires TokensAt(nodes, batch, at)
    ensures if node.None? then TokensAt(nodes + [node], batch, at) else TokensAt(nodes + [node], batch + [node.value], at + [|nodes|])
  {
    forall i: nat | i < |nodes + [node]| && (nodes + [node])[i].Some? ensures i in at + [|nodes|] && (i < |nodes| ==> i in at) {
      if i < |nodes| {
        assert nodes[i].Some?;
      }
    }
  }

  /** A batch is the tokens of a page: those of the nodes that carry one, each once and in order. */
  lemma {:induction false} BatchIs(nodes: seq<Node>) returns (at: seq<nat>)
    ensures TokensAt(nodes, Batch(nodes), at)
  {
    if nodes == [] {
      at := [];
    } else {
      var last := |nodes| - 1;
      at := BatchIs(nodes[..last]);
      OneNodeMore(nodes[..last], Batch(nodes[..last]), at, nodes[last]);
      assert nodes == nodes[..last] + [nodes[last]];
      at := if nodes[last].Some? then at + [last] else at;
    }
  }

  /** The loop over a page's nodes. */
  method TakeBatch(nodes: seq<Node>) returns (batch: seq<Token>)
    ensures batch == Batch(nodes)
  {
    batch := [];
    for i := 0 to |nodes|
      invariant batch == Batch(nodes[..i])
    {
      assert nodes[..i + 1][..i] == nodes[..i];
      if nodes[i].Some? {
        batch := batch + [nodes[i].value];
      }
    }
    assert nodes[..|nodes|] == nodes;
  }

  /** An empty cursor is no cursor. */
  function Usable(cursor: Option<Cursor>): Option<Cursor> {
    if cursor == Some("") then None else cursor
  }

  /** What a page leads to: the end, a page that cannot be passed, or the next page. */
  datatype Onward = End | Stuck | Next(cursor: Cursor)

  function After(page: Read, cursor: Option<Cursor>): Onward
    requires page.Page?
  {
    if !page.hasNext then End
    else if Usable(page.endCursor).None? || page.endCursor == cursor then Stuck
    else Next(page.endCursor.value)
  }

  /** What reading one page does: the walk is over, or goes on after its batch. */
  datatype Step = Over(walk: Walk) | On(batch: seq<Token>, cursor: Cursor, read: nat)

  function StepAt(service: Service, wanted: Wanted, cursor: Option<Cursor>, read: nat): Step {
    var page := service(cursor);
    if page.Failed? then Over(Walk([], Report(true, read, true, Usable(cursor))))
    else
      var batch, read' := Batch(page.nodes), read + |page.nodes|;
      if wanted(batch) || After(page, cursor).End? then Over(Walk([batch], Report(false, read', false, None)))
      else if After(page, cursor).Stuck? then Over(Walk([batch], Report(true, read', true, None)))
      else On(batch, After(page, cursor).cursor, read')
  }

  type Stepper = (Option<Cursor>, nat) -> Step

  /** The walk of at most `pages` steps from `cursor`, with `read` objects read before. */
  function Steps(stepper: Stepper, cursor: Option<Cursor>, pages: nat, read: nat): Walk
    decreases pages
  {
    if pages == 0 then Walk([], Report(true, read, false, Usable(cursor)))
    else
      match stepper(cursor, read)
      case Over(walk) => walk
      case On(batch, next, read') => Behind(batch, Steps(stepper, Some(next), pages - 1, read'))
  }

  function StepperOf(service: Service, wanted: Wanted): Stepper {
    (cursor: Option<Cursor>, read: nat) => StepAt(service, wanted, cursor, read)
  }

  /** The walk of at most `pages` pages of a service. */
  function WalkFrom(service: Service, wanted: Wanted, cursor: Option<Cursor>, pages: nat, read: nat): Walk {
    Steps(StepperOf(service, wanted), cursor, pages, read)
  }

  function Behind(batch: seq<Token>, rest: Walk): Walk {
    Walk([batch] + rest.batches, rest.report)
  }

  /** `whole` is a walk that handed over `batches` and then goes on as `rest`. */
  predicate Along(whole: Walk, batches: seq<seq<Token>>, rest: Walk) {
    whole == Walk(batches + rest.batches, rest.report)
  }

  lemma BehindMore(batches: seq<seq<Token>>, batch: seq<Token>)
    ensures forall whole, rest :: Along(whole, batches, Behind(batch, rest)) ==> Along(whole, batches + [batch], rest)
  {
    forall whole, rest | Along(whole, batches, Behind(batch, rest)) ensures Along(whole, batches + [batch], rest) {
      assert batches + ([batch] + rest.batches) == (batches + [batch]) + rest.batches;
    }
  }

  /** Walks the metadata pages, handing each batch over until one is wanted, the pages end, a page fails or the budget is spent. */
  method PageCoinMetadata(service: Service, wanted: Wanted, start: Option<Cursor>, maxPages: nat) returns (w: Walk)
    ensures w == WalkFrom(service, wanted, start, maxPages, 0)
  {
    var read: nat := 0;
    var cursor, batches := start, [];
    for page := 0 to maxPages
      invariant Along(WalkFrom(service, wanted, start, maxPages, 0), batches, WalkFrom(service, wanted, cursor, maxPages - page, read))
    {
      var data := service(cursor);
      if data.Failed? {
        return Walk(batches, Report(true, read, true, Usable(cursor)));
      }
      read := read + |data.nodes|;
      var batch := TakeBatch(data.nodes);
      BehindMore(batches, batch);
      batches := batches + [batch];
      if wanted(batch) {
        return Walk(batches, Report(false, read, false, None));
      }
      if !data.hasNext {
        return Walk(batches, Report(false, read, false, None));
      }
      var next := data.endCursor;
      if Usable(next).None? || next == cursor {
        return Walk(batches, Report(true, read, true, None));
      }
      cursor := next;
    }
    w := Walk(batches, Report(true, read, false, Usable(cursor)));
  }

  // ----- The walk, by the pages it reads -----

  /** The page at `c` is not wanted and leads to another one, at `next`. */
  predicate GoesOnTo(service: Service, wanted: Wanted, c: Option<Cursor>, next: Option<Cursor>) {
    var page := service(c);
    page.Page? && !wanted(Batch(page.nodes)) && page.hasNext && next == page.endCursor && next.Some? && next != Some("") && next != c
  }

  /** The objects of the pages at these cursors. */
  function Objects(service: Service, cursors: seq<Option<Cursor>>): nat {
    if cursors == [] then 0
    else (if service(cursors[0]).Page? then |service(cursors[0]).nodes| else 0) + Objects(service, cursors[1..])
  }

  /** The pages at `cursors`, each led to by the one before, give these batches. */
  ghost predicate PagesRead(service: Service, wanted: Wanted, start: Option<Cursor>, batches: seq<seq<Token>>, cursors: seq<Option<Cursor>>) {
    && |batches| == |cursors| && (cursors != [] ==> cursors[0] == start)
    && (forall i :: 0 <= i < |cursors| ==> service(cursors[i]).Page? && batches[i] == Batch(service(cursors[i]).nodes))
    && (forall i :: 0 < i < |cursors| ==> GoesOnTo(service, wanted, cursors[i - 1], cursors[i]))
  }

  /**
   * It ended at its last page if that was wanted or the end, and there with a
   * failure if that claimed more and led nowhere; else it stands at the cursor
   * after its last page, where a read failed or the budget was spent.
   */
  ghost predicate EndsSo(service: Service, wanted: Wanted, most: nat, cursors: seq<Option<Cursor>>, at: Option<Cursor>, r: Report) {
    var n := |cursors|;
    if n > 0 && !GoesOnTo(service, wanted, cursors[n - 1], at) then
      var page := service(cursors[n - 1]);
      && page.Page?
      && if wanted(Batch(page.nodes)) || !page.hasNext then r == Report(false, r.scanned, false, None)
         else
           && (page.endCursor.None? || page.endCursor == Some("") || page.endCursor == cursors[n - 1])
           && r == Report(true, r.scanned, true, None)
    else
      && r == Report(true, r.scanned, r.failed, if at == Some("") then None else at)
      && if r.failed then n < most && service(at).Failed? else n == most
  }

  /** The walk reads the pages at `cursors`, at most `most`, counts their objects, and ends as it says. */
  ghost predicate Walked(service: Service, wanted: Wanted, start: Option<Cursor>, most: nat, read: nat, w: Walk, cursors: seq<Option<Cursor>>, at: Option<Cursor>) {
    && |cursors| <= most && (cursors == [] ==> at == start)
    && PagesRead(service, wanted, start, w.batches, cursors)
    && w.report.scanned == read + Objects(service, cursors)
    && EndsSo(service, wanted, most, cursors, at, w.report)
  }

  lemma {:induction false} WalkIs(service: Service, wanted: Wanted, start: Option<Cursor>, most: nat, read: nat) returns (cursors: seq<Option<Cursor>>, at: Option<Cursor>)
    ensures Walked(service, wanted, start, most, read, WalkFrom(service, wanted, start, most, read), cursors, at)
    decreases most
  {
    cursors, at := [], start;
    if most > 0 && service(start).Page? {
      cursors := [start];
      assert cursors[1..] == [] && Objects(service, cursors) == |service(start).nodes|;
      var step := StepAt(service, wanted, start, read);
      if step.On? {
        var next, later := Some(step.cursor), [];
        later, at := WalkIs(service, wanted, next, most - 1, step.read);
        var rest := WalkFrom(service, wanted, next, most - 1, step.read);
        ReadBehind(service, wanted, start, next, rest.batches, later);
        EndBehind(service, wanted, start, next, most, later, at, rest.report);
        cursors := [start] + later;
        assert cursors[1..] == later;
      }
    }
  }

  lemma ReadBehind(service: Service, wanted: Wanted, start: Option<Cursor>, next: Option<Cursor>, batches: seq<seq<Token>>, later: seq<Option<Cursor>>)
    requires GoesOnTo(service, wanted, start, next) && PagesRead(service, wanted, next, batches, later)
    ensures PagesRead(service, wanted, start, [Batch(service(start).nodes)] + batches, [start] + later)
  {
    var cursors := [start] + later;
    forall i | 0 < i < |cursors| ensures GoesOnTo(service, wanted, cursors[i - 1], cursors[i]) {
      assert cursors[i] == later[i - 1];
      if i > 1 {
        assert cursors[i - 1] == later[i - 2] && GoesOnTo(service, wanted, later[i - 2], later[i - 1]);
      }
    }
  }

  lemma EndBehind(service: Service, wanted: Wanted, start: Option<Cursor>, next: Option<Cursor>, most: nat, later: seq<Option<Cursor>>, at: Option<Cursor>, r: Report)
    requires GoesOnTo(service, wanted, start, next) && most > 0 && EndsSo(service, wanted, most - 1, later, at, r) && (later == [] ==> at == next)
    ensures EndsSo(service, wanted, most, [start] + later, at, r)
  {
    if later != [] {
      assert ([start] + later)[|later|] == later[|later| - 1];
    }
  }

  function Concat(batches: seq<seq<Token>>): seq<Token> {
    if batches == [] then [] else batches[0] + Concat(batches[1..])
  }

  // ----- Searching -----

  /** The first token whose symbol is `q` once lowered. */
  function FirstMatch(lower: string -> string, tokens: seq<Token>, q: string): (t: Option<Token>)
    ensures t.Some? ==> t.value in tokens && lower(t.value.symbol) == q
    ensures t.None? ==> forall token :: token in tokens ==> lower(token.symbol) != q
  {
    if tokens == [] then None
    else if lower(tokens[0].symbol) == q then Some(tokens[0])
    else FirstMatch(lower, tokens[1..], q)
  }

  function Holds(lower: string -> string, q: string): Wanted {
    (batch: seq<Token>) => FirstMatch(lower, batch, q).Some?
  }

  lemma {:induction false} FirstOfJoined(lower: string -> string, a: seq<Token>, b: seq<Token>, q: string)
    ensures FirstMatch(lower, a + b, q) == if FirstMatch(lower, a, q).Some? then FirstMatch(lower, a, q) else FirstMatch(lower, b, q)
  {
    if a == [] {
      assert a + b == b;
    } else {
      assert (a + b)[0] == a[0] && (a + b)[1..] == a[1..] + b;
      FirstOfJoined(lower, a[1..], b, q);
    }
  }

  /** What a search that stopped at the wanted batch found there. */
  function Found(lower: string -> string, batches: seq<seq<Token>>, q: string): Option<Token> {
    if batches == [] then None else FirstMatch(lower, batches[|batches| - 1], q)
  }

  /** A streamed search found what searching the whole scan would, having read a prefix of its pages. */
  ghost predicate Refines(lower: string -> string, q: string, streamed: Walk, scanned: Walk) {
    && Found(lower, streamed.batches, q) == FirstMatch(lower, Concat(scanned.batches), q)
    && streamed.batches <= scanned.batches && streamed.report.scanned <= scanned.report.scanned
    && (Found(lower, streamed.batches, q).None? ==> streamed == scanned)
  }

  /** The batch with a match comes first: searching on changes nothing. */
  lemma {:induction false} StopsHere(lower: string -> string, q: string, batch: seq<Token>, read: nat, rest: Walk)
    requires FirstMatch(lower, batch, q).Some? && read <= rest.report.scanned
    ensures Refines(lower, q, Walk([batch], Report(false, read, false, None)), Behind(batch, rest))
  {
    assert ([batch] + rest.batches)[1..] == rest.batches;
    FirstOfJoined(lower, batch, Concat(rest.batches), q);
  }

  /** A batch without a match comes first: what counts is what comes after. */
  lemma {:induction false} GoesOn(lower: string -> string, q: string, batch: seq<Token>, streamed: Walk, scanned: Walk)
    requires FirstMatch(lower, batch, q).None? && Refines(lower, q, streamed, scanned)
    ensures Refines(lower, q, Behind(batch, streamed), Behind(batch, scanned))
  {
    assert ([batch] + scanned.batches)[1..] == scanned.batches;
    FirstOfJoined(lower, batch, Concat(scanned.batches), q);
    var all := [batch] + streamed.batches;
    assert all[|all| - 1] == if streamed.batches == [] then batch else streamed.batches[|streamed.batches| - 1];
  }

  /** Both walks end at one page. */
  lemma {:induction false} EndsHere(lower: string -> string, q: string, service: Service, cursor: Option<Cursor>, read: nat)
    requires StepAt(service, NOTHING, cursor, read).Over?
    ensures StepAt(service, Holds(lower, q), cursor, read).Over?
    ensures Refines(lower, q, StepAt(service, Holds(lower, q), cursor, read).walk, StepAt(service, NOTHING, cursor, read).walk)
  {
    if service(cursor).Page? {
      var batch := Batch(service(cursor).nodes);
      assert Concat([batch]) == batch + [] == batch;
    }
  }

  /** What a step of a search does, beside the same step of a scan. */
  ghost predicate Beside(lower: string -> string, q: string, search: Step, scan: Step, read: nat) {
    match scan
    case Over(walk) => read <= walk.report.scanned && search.Over? && Refines(lower, q, search.walk, walk)
    case On(batch, _, read') =>
      && read <= read'
      && search == if FirstMatch(lower, batch, q).Some? then Over(Walk([batch], Report(false, read', false, None))) else scan
  }

  ghost predicate AllBeside(lower: string -> string, q: string, search: Stepper, scan: Stepper) {
    forall cursor, read :: Beside(lower, q, search(cursor, read), scan(cursor, read), read)
  }

  lemma {:induction false} ReadsGrow(lower: string -> string, q: string, search: Stepper, scan: Stepper, cursor: Option<Cursor>, pages: nat, read: nat)
    requires AllBeside(lower, q, search, scan)
    ensures Steps(scan, cursor, pages, read).report.scanned >= read
    decreases pages
  {
    if pages > 0 {
      var step := scan(cursor, read);
      assert Beside(lower, q, search(cursor, read), step, read);
      if step.On? {
        ReadsGrow(lower, q, search, scan, Some(step.cursor), pages - 1, step.read);
      }
    }
  }

  lemma {:induction false} SearchBesideScan(lower: string -> string, q: string, search: Stepper, scan: Stepper, cursor: Option<Cursor>, pages: nat, read: nat)
    requires AllBeside(lower, q, search, scan)
    ensures Refines(lower, q, Steps(search, cursor, pages, read), Steps(scan, cursor, pages, read))
    decreases pages
  {
    if pages > 0 {
      var step := scan(cursor, read);
      assert Beside(lower, q, search(cursor, read), step, read);
      if step.On? {
        var next := Some(step.cursor);
        if FirstMatch(lower, step.batch, q).Some? {
          ReadsGrow(lower, q, search, scan, next, pages - 1, step.read);
          StopsHere(lower, q, step.batch, step.read, Steps(scan, next, pages - 1, step.read));
        } else {
          SearchBesideScan(lower, q, search, scan, next, pages - 1, step.read);
          GoesOn(lower, q, step.batch, Steps(search, next, pages - 1, step.read), Steps(scan, next, pages - 1, step.read));
        }
      }
    }
  }

  /** One page, searched and scanned. */
  lemma {:induction false} PageBeside(lower: string -> string, q: string, service: Service, cursor: Option<Cursor>, read: nat)
    ensures Beside(lower, q, StepAt(service, Holds(lower, q), cursor, read), StepAt(service, NOTHING, cursor, read), read)
  {
    if StepAt(service, NOTHING, cursor, read).Over? {
      EndsHere(lower, q, service, cursor, read);
    }
  }

  /**
   * Stopping at the first batch with a match finds the same token as scanning
   * to the end and searching afterwards, and reads a prefix of the same pages.
   */
  lemma {:induction false} StreamingRefinesScan(lower: string -> string, service: Service, cursor: Option<Cursor>, pages: nat, read: nat, q: string)
    ensures Refines(lower, q, WalkFrom(service, Holds(lower, q), cursor, pages, read), WalkFrom(service, NOTHING, cursor, pages, read))
  {
    forall c, r ensures Beside(lower, q, StepAt(service, Holds(lower, q), c, r), StepAt(service, NOTHING, c, r), r) {
      PageBeside(lower, q, service, c, r);
    }
    SearchBesideScan(lower, q, StepperOf(service, Holds(lower, q)), StepperOf(service, NOTHING), cursor, pages, read);
  }

  // ----- Resuming -----

  /** A service that answers as `before` did wherever that did not fail. */
  ghost predicate Recovered(before: Service, now: Service) {
    forall c :: before(c).Page? ==> now(c) == before(c)
  }

  /** Wherever one walk goes on, so does the other; where it stops at a page it could not read it offers that page's cursor. */
  ghost predicate Repeats(before: Stepper, now: Stepper) {
    forall c, r :: match before(c, r)
      case On(_, _, _) => now(c, r) == before(c, r)
      case Over(walk) => walk.report.nextCursor.Some? ==> walk == Walk([], Report(true, r, true, c))
  }

  lemma {:induction false} StepsResume(before: Stepper, now: Stepper, cursor: Option<Cursor>, pages: nat, more: nat, read: nat)
    requires Repeats(before, now) && Steps(before, cursor, pages, read).report.nextCursor.Some?
    ensures var first := Steps(before, cursor, pages, read);
      var rest := Steps(now, first.report.nextCursor, more, first.report.scanned);
      Steps(now, cursor, |first.batches| + more, read) == Walk(first.batches + rest.batches, rest.report)
    decreases pages
  {
    if pages > 0 && before(cursor, read).On? {
      var step := before(cursor, read);
      StepsResume(before, now, Some(step.cursor), pages - 1, more, step.read);
    }
  }

  /**
   * Resuming at the cursor a cut-short scan gave, whether the budget or a
   * failed page ended it, reads exactly what one longer scan would have read
   * after the same pages.
   */
  lemma {:induction false} ResumeContinues(before: Service, now: Service, cursor: Option<Cursor>, pages: nat, more: nat, read: nat)
    requires Recovered(before, now)
    requires WalkFrom(before, NOTHING, cursor, pages, read).report.nextCursor.Some?
    ensures var first := WalkFrom(before, NOTHING, cursor, pages, read);
      var rest := WalkFrom(now, NOTHING, first.report.nextCursor, more, first.report.scanned);
      WalkFrom(now, NOTHING, cursor, |first.batches| + more, read) == Walk(first.batches + rest.batches, rest.report)
  {
    forall c, r ensures match StepAt(before, NOTHING, c, r)
      case On(_, _, _) => StepAt(now, NOTHING, c, r) == StepAt(before, NOTHING, c, r)
      case Over(walk) => walk.report.nextCursor.Some? ==> walk == Walk([], Report(true, r, true, c))
    {
      assert before(c).Page? ==> now(c) == before(c);
    }
    StepsResume(StepperOf(before, NOTHING), StepperOf(now, NOTHING), cursor, pages, more, read);
  }

  /** What a report says of a walk cut short. */
  predicate CandidReport(report: Report) {
    && (report.nextCursor.Some? ==> report.truncated && report.nextCursor != Some(""))
    && (report.failed ==> report.truncated)
    && (report.truncated && report.nextCursor.None? ==> report.failed)
  }

  /**
   * A scan cut short names where to go on, or failed: it is never reported
   * cut short with neither. Only when it starts with no cursor and may read no
   * page could it be.
   */
  lemma {:induction false} CutShortSaysWhy(service: Service, cursor: Option<Cursor>, pages: nat, read: nat)
    requires pages > 0 || Usable(cursor).Some?
    ensures CandidReport(WalkFrom(service, NOTHING, cursor, pages, read).report)
    decreases pages
  {
    if pages > 0 && StepAt(service, NOTHING, cursor, read).On? {
      var step := StepAt(service, NOTHING, cursor, read);
      assert Usable(Some(step.cursor)).Some?;
      CutShortSaysWhy(service, Some(step.cursor), pages - 1, step.read);
    }
  }
}
