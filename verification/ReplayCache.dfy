/** The replaying `fetch`: the object, then any interleaving. */
module ReplayCache {
  import opened Wrappers
  import opened GraphqlQuery
  import opened ReplayRules
  import opened ReplayClassifier
  import opened GraphqlExecution
  import opened ReplayStability
  import opened ReplaySoundness

  /** The margin between a stored read's bound and the latest checkpoint, at the least. */
  const SETTLED_CHECKPOINTS := 1000

  const FRESH_MS := 5000

  /** A request to one endpoint. Requests are keyed by their exact text; here, by what the text says. */
  datatype Request = Request(doc: Document, vars: Vars)

  /** A live response: not OK, not JSON, or a body with `data` and maybe `errors`. */
  datatype Reply = NotOk | NotJson | Body(data: Option<Json>, errors: bool)

  /** An answer worth storing has data, reports no error, and has no null on a required path. */
  predicate GraphqlRecordable(read: Read, reply: Reply) {
    reply.Body? && !reply.errors && reply.data.Some? && forall p :: p in read.required ==> Present(reply.data.value, p)
  }

  /** The latest checkpoint last read from the endpoint, and the clock then. */
  datatype Latest = Latest(checkpoint: nat, at: int)

  predicate KnownSettled(latest: Option<Latest>, bound: nat) {
    latest.Some? && bound <= latest.value.checkpoint - SETTLED_CHECKPOINTS
  }

  predicate TooSoon(latest: Option<Latest>, clock: int) {
    latest.Some? && clock - latest.value.at < FRESH_MS
  }

  /** The latest checkpoint remembered after a check of `bound`: read again if there is one to read, unless the one known settles it or is fresh. */
  function LatestAfter(latest: Option<Latest>, bound: nat, clock: int, reading: Option<nat>, clockAfter: int): Option<Latest> {
    if latest.Some? && (bound + SETTLED_CHECKPOINTS <= latest.value.checkpoint || clock < latest.value.at + FRESH_MS) then latest
    else if reading.None? then latest
    else Some(Latest(reading.value, clockAfter))
  }

  /**
   * What one request does. A hit is served from the store; a miss is served
   * live. It is kept exactly when it is classified, recordable and unbounded or
   * settled by the latest checkpoint remembered after its check, and nothing
   * but such a check changes what is remembered.
   */
  predicate Fetched(setting: Setting, store: map<Request, Json>, latest: Option<Latest>, request: Request, live: Reply, clock: int, reading: Option<nat>, clockAfter: int,
                    served: Reply, store': map<Request, Json>, latest': Option<Latest>)
  {
    var read := Classify(setting, request.doc, request.vars);
    if read.Some? && request in store then served == Body(Some(store[request]), false) && store' == store && latest' == latest
    else
      && served == live
      && if read.None? || !GraphqlRecordable(read.value, live) then store' == store && latest' == latest
         else if read.value.bound.None? then store' == store[request := live.data.value] && latest' == latest
         else
           && latest' == LatestAfter(latest, read.value.bound.value, clock, reading, clockAfter)
           && store' == if latest'.Some? && read.value.bound.value + SETTLED_CHECKPOINTS <= latest'.value.checkpoint
                        then store[request := live.data.value] else store
  }

  // ---------------------------------------------------------------------------
  // The object
  // ---------------------------------------------------------------------------

  class ReplayingFetch {
    const setting: Setting
    var store: map<Request, Json>
    var latest: Option<Latest>

    constructor (setting: Setting)
      ensures this.setting == setting && store == map[] && latest == None
    {
      this.setting := setting;
      store, latest := map[], None;
    }

    /**
     * Whether the endpoint is far enough past `bound`. `reading` is the latest
     * checkpoint a live query answers with, if it is made and answers with one.
     */
    method Settled(bound: nat, clock: int, reading: Option<nat>, clockAfter: int) returns (ok: bool)
      modifies `latest
      ensures latest == LatestAfter(old(latest), bound, clock, reading, clockAfter)
      ensures ok <==> latest.Some? && bound + SETTLED_CHECKPOINTS <= latest.value.checkpoint
    {
      if latest.Some? && bound <= latest.value.checkpoint - SETTLED_CHECKPOINTS {
        return true;
      }
      if latest.Some? && clock - latest.value.at < FRESH_MS {
        return false;
      }
      if reading.None? {
        return false;
      }
      latest := Some(Latest(reading.value, clockAfter));
      ok := bound <= latest.value.checkpoint - SETTLED_CHECKPOINTS;
    }

    /** One request with nothing in between. `live` is what the endpoint answers if it is asked. */
    method Fetch(request: Request, live: Reply, clock: int, reading: Option<nat>, clockAfter: int) returns (served: Reply)
      modifies this
      ensures Fetched(setting, old(store), old(latest), request, live, clock, reading, clockAfter, served, store, latest)
    {
      var read := ClassifyGraphql(setting, request.doc, request.vars);
      if read.None? {
        return live;
      }
      if request in store {
        return Body(Some(store[request]), false);
      }
      if GraphqlRecordable(read.value, live) {
        var ok := true;
        if read.value.bound.Some? {
          ok := Settled(read.value.bound.value, clock, reading, clockAfter);
        }
        if ok {
          store := store[request := live.data.value];
        }
      }
      served := live;
    }
  }

  // ---------------------------------------------------------------------------
  // Any interleaving
  // ---------------------------------------------------------------------------

  /**
   * A request on its way: asked live; answered at moment `at` with data to keep;
   * or that, with the latest checkpoint being read. `covered` says whether the
   * latest checkpoint known when the answer came already settled its bound.
   */
  datatype Pending =
    | Asked(request: Request, read: Read)
    | Held(request: Request, read: Read, at: nat, data: Json, covered: bool)
    | Querying(request: Request, read: Read, at: nat, data: Json, covered: bool)

  datatype System = System(store: map<Request, Json>, latest: Option<Latest>, now: nat, pending: map<nat, Pending>)

  datatype Event =
    | Advance(to: nat)
    | Start(id: nat, request: Request)
    | Arrive(id: nat, reply: Reply)
    | Check(id: nat, clock: int)
    | ReadLatest(id: nat, reading: Option<nat>, clock: int)

  /** The endpoint at moment `now`: an answer without errors is the answer, and its latest checkpoint is one it has reached. */
  predicate Truthful(setting: Setting, ch: Chain, now: nat, request: Request, reply: Reply) {
    reply.Body? && !reply.errors && reply.data.Some? ==> Run(setting, ch, now, request.doc, request.vars) == reply.data
  }

  predicate Enabled(setting: Setting, ch: Chain, s: System, e: Event) {
    match e
    case Advance(to) => s.now <= to
    case Start(id, request) =>
      id !in s.pending && request !in s.store && Classify(setting, request.doc, request.vars).Some?
    case Arrive(id, reply) => id in s.pending && s.pending[id].Asked? && Truthful(setting, ch, s.now, s.pending[id].request, reply)
    case Check(id, _) => id in s.pending && s.pending[id].Held?
    case ReadLatest(id, reading, _) => id in s.pending && s.pending[id].Querying? && (reading.Some? ==> reading.value <= ch.latest(s.now))
  }

  function Dropped(s: System, id: nat): System {
    s.(pending := s.pending - {id})
  }

  function Kept(s: System, id: nat): System
    requires id in s.pending && !s.pending[id].Asked?
  {
    Dropped(s, id).(store := s.store[s.pending[id].request := s.pending[id].data])
  }

  function Next(setting: Setting, ch: Chain, s: System, e: Event): System
    requires Enabled(setting, ch, s, e)
  {
    match e
    case Advance(to) => s.(now := to)
    case Start(id, request) => s.(pending := s.pending[id := Asked(request, Classify(setting, request.doc, request.vars).value)])
    case Arrive(id, reply) =>
      var p := s.pending[id];
      if GraphqlRecordable(p.read, reply)
      then
        var covered := p.read.bound.Some? && KnownSettled(s.latest, p.read.bound.value);
        s.(pending := s.pending[id := Held(p.request, p.read, s.now, reply.data.value, covered)])
      else Dropped(s, id)
    case Check(id, clock) =>
      var p := s.pending[id];
      if p.read.bound.None? || KnownSettled(s.latest, p.read.bound.value) then Kept(s, id)
      else if TooSoon(s.latest, clock) then Dropped(s, id)
      else s.(pending := s.pending[id := Querying(p.request, p.read, p.at, p.data, p.covered)])
    case ReadLatest(id, reading, clock) =>
      var p := s.pending[id];
      if reading.None? then Dropped(s, id)
      else
        var s' := s.(latest := Some(Latest(reading.value, clock)));
        if p.read.bound.None? || KnownSettled(s'.latest, p.read.bound.value) then Kept(s', id) else Dropped(s', id)
  }

  const EMPTY := System(map[], None, 0, map[])

  /** An answer to a request that would be classified as it runs, too, is the live answer from now on. */
  ghost predicate Transparent(setting: Setting, ch: Chain, now: nat, request: Request, data: Json) {
    ClassifiedAsSent(setting, request.doc, request.vars) ==>
      forall t: nat :: now <= t ==> Run(setting, ch, t, request.doc, request.vars) == Some(data)
  }

  /** A pending answer is what the endpoint answered, in full, at the moment it did. */
  ghost predicate Honest(setting: Setting, ch: Chain, now: nat, p: Pending) {
    && Classify(setting, p.request.doc, p.request.vars) == Some(p.read)
    && (!p.Asked? ==>
          && p.at <= now
          && Run(setting, ch, p.at, p.request.doc, p.request.vars) == Some(p.data)
          && Recordable(p.read, p.data)
          && (p.covered ==> p.read.bound.Some? && p.read.bound.value + SETTLED_CHECKPOINTS <= ch.latest(p.at)))
  }

  ghost predicate Inv(setting: Setting, ch: Chain, s: System) {
    && (forall request :: request in s.store ==> Transparent(setting, ch, s.now, request, s.store[request]))
    && (forall id :: id in s.pending ==> Honest(setting, ch, s.now, s.pending[id]))
    && (s.latest.Some? ==> s.latest.value.checkpoint <= ch.latest(s.now))
  }

  /**
   * The check of a bounded answer is in time: the latest checkpoint known
   * before the answer already covered the bound, or the chain has grown by no
   * more than `growth` since the answer.
   */
  predicate InTime(ch: Chain, growth: nat, s: System, e: Event) {
    (e.Check? || e.ReadLatest?) && e.id in s.pending && !s.pending[e.id].Asked? && s.pending[e.id].read.bound.Some? ==>
      s.pending[e.id].covered || ch.latest(s.now) <= ch.latest(s.pending[e.id].at) + growth
  }

  /** A bounded answer, checked in time, was final when it was given. */
  predicate WasFinal(ch: Chain, growth: nat, now: nat, p: Pending)
    requires !p.Asked?
  {
    p.read.bound.Some? ==>
      && p.read.bound.value + SETTLED_CHECKPOINTS <= ch.latest(now)
      && (p.covered || ch.latest(now) <= ch.latest(p.at) + growth)
  }

  lemma KeptIsTransparent(setting: Setting, ch: Chain, growth: nat, now: nat, p: Pending)
    requires Faithful(setting, ch) && ch.lag + growth <= SETTLED_CHECKPOINTS
    requires !p.Asked? && Honest(setting, ch, now, p) && WasFinal(ch, growth, now, p)
    ensures Transparent(setting, ch, now, p.request, p.data)
  {
    forall t: nat | now <= t && ClassifiedAsSent(setting, p.request.doc, p.request.vars)
      ensures Run(setting, ch, t, p.request.doc, p.request.vars) == Some(p.data)
    {
      ReplaySound(setting, ch, p.request.doc, p.request.vars, p.at, t);
    }
  }

  lemma LaterKeepsInv(setting: Setting, ch: Chain, s: System, to: nat)
    requires Faithful(setting, ch) && Inv(setting, ch, s) && s.now <= to
    ensures Inv(setting, ch, s.(now := to))
  {
    forall request | request in s.store ensures Transparent(setting, ch, to, request, s.store[request]) {
      assert Transparent(setting, ch, s.now, request, s.store[request]);
    }
    forall id | id in s.pending ensures Honest(setting, ch, to, s.pending[id]) {
      assert Honest(setting, ch, s.now, s.pending[id]);
    }
    assert ch.latest(s.now) <= ch.latest(to);
  }

  /** Replacing what is pending under `id` by something honest. */
  lemma PendingKeepsInv(setting: Setting, ch: Chain, s: System, id: nat, p: Pending)
    requires Inv(setting, ch, s) && Honest(setting, ch, s.now, p)
    ensures Inv(setting, ch, s.(pending := s.pending[id := p])) && Inv(setting, ch, Dropped(s, id))
  {
  }

  lemma KeepingKeepsInv(setting: Setting, ch: Chain, growth: nat, s: System, id: nat)
    requires Faithful(setting, ch) && ch.lag + growth <= SETTLED_CHECKPOINTS
    requires Inv(setting, ch, s) && id in s.pending && !s.pending[id].Asked?
    requires WasFinal(ch, growth, s.now, s.pending[id])
    ensures Inv(setting, ch, Kept(s, id))
  {
    assert Honest(setting, ch, s.now, s.pending[id]);
    KeptIsTransparent(setting, ch, growth, s.now, s.pending[id]);
    PendingKeepsInv(setting, ch, s, id, s.pending[id]);
  }

  lemma NextKeepsInv(setting: Setting, ch: Chain, growth: nat, s: System, e: Event)
    requires Faithful(setting, ch) && ch.lag + growth <= SETTLED_CHECKPOINTS
    requires Inv(setting, ch, s) && Enabled(setting, ch, s, e) && InTime(ch, growth, s, e)
    ensures Inv(setting, ch, Next(setting, ch, s, e))
  {
    if e.Advance? {
      LaterKeepsInv(setting, ch, s, e.to);
    } else if e.Start? {
      PendingKeepsInv(setting, ch, s, e.id, Next(setting, ch, s, e).pending[e.id]);
    } else {
      var p := s.pending[e.id];
      assert Honest(setting, ch, s.now, p);
      PendingKeepsInv(setting, ch, s, e.id, p);
      match e {
        case Arrive(id, reply) =>
          if GraphqlRecordable(p.read, reply) {
            PendingKeepsInv(setting, ch, s, id, Next(setting, ch, s, e).pending[id]);
          }
        case Check(id, clock) => CheckKeepsInv(setting, ch, growth, s, id, clock);
        case ReadLatest(id, reading, clock) => ReadingKeepsInv(setting, ch, growth, s, id, reading, clock);
        case _ =>
      }
    }
  }

  lemma CheckKeepsInv(setting: Setting, ch: Chain, growth: nat, s: System, id: nat, clock: int)
    requires Faithful(setting, ch) && ch.lag + growth <= SETTLED_CHECKPOINTS && Inv(setting, ch, s)
    requires Enabled(setting, ch, s, Check(id, clock)) && InTime(ch, growth, s, Check(id, clock))
    ensures Inv(setting, ch, Next(setting, ch, s, Check(id, clock)))
  {
    var p := s.pending[id];
    assert Honest(setting, ch, s.now, p);
    if p.read.bound.None? || KnownSettled(s.latest, p.read.bound.value) {
      KeepingKeepsInv(setting, ch, growth, s, id);
    } else {
      PendingKeepsInv(setting, ch, s, id, Querying(p.request, p.read, p.at, p.data, p.covered));
    }
  }

  lemma ReadingKeepsInv(setting: Setting, ch: Chain, growth: nat, s: System, id: nat, reading: Option<nat>, clock: int)
    requires Faithful(setting, ch) && ch.lag + growth <= SETTLED_CHECKPOINTS && Inv(setting, ch, s)
    requires Enabled(setting, ch, s, ReadLatest(id, reading, clock)) && InTime(ch, growth, s, ReadLatest(id, reading, clock))
    ensures Inv(setting, ch, Next(setting, ch, s, ReadLatest(id, reading, clock)))
  {
    var p := s.pending[id];
    assert Honest(setting, ch, s.now, p);
    PendingKeepsInv(setting, ch, s, id, p);
    if reading.Some? {
      var s' := s.(latest := Some(Latest(reading.value, clock)));
      assert Inv(setting, ch, s');
      PendingKeepsInv(setting, ch, s', id, p);
      if p.read.bound.None? || KnownSettled(s'.latest, p.read.bound.value) {
        KeepingKeepsInv(setting, ch, growth, s', id);
      }
    }
  }

  /** `events`, each enabled and each check in time, lead from `s` to `s'`. */
  ghost predicate Reaches(setting: Setting, ch: Chain, growth: nat, s: System, events: seq<Event>, s': System)
    decreases |events|
  {
    if events == [] then s == s'
    else
      && Enabled(setting, ch, s, events[0]) && InTime(ch, growth, s, events[0])
      && Reaches(setting, ch, growth, Next(setting, ch, s, events[0]), events[1..], s')
  }

  lemma {:induction false} RunKeepsInv(setting: Setting, ch: Chain, growth: nat, s: System, events: seq<Event>, s': System)
    requires Faithful(setting, ch) && ch.lag + growth <= SETTLED_CHECKPOINTS && Inv(setting, ch, s) && Reaches(setting, ch, growth, s, events, s')
    ensures Inv(setting, ch, s')
    decreases |events|
  {
    if events != [] {
      NextKeepsInv(setting, ch, growth, s, events[0]);
      RunKeepsInv(setting, ch, growth, Next(setting, ch, s, events[0]), events[1..], s');
    }
  }

  /**
   * Cache transparency: after any interleaving whose checks are in time, every
   * body the store serves is what the endpoint would answer at that moment,
   * if the growth allowed and the pipelines' lag fit the settling distance and
   * the request would be classified as it runs, too.
   */
  lemma ServedIsLive(setting: Setting, ch: Chain, growth: nat, events: seq<Event>, s: System, request: Request)
    requires Faithful(setting, ch) && ch.lag + growth <= SETTLED_CHECKPOINTS
    requires Reaches(setting, ch, growth, EMPTY, events, s) && request in s.store && ClassifiedAsSent(setting, request.doc, request.vars)
    ensures Run(setting, ch, s.now, request.doc, request.vars) == Some(s.store[request])
  {
    RunKeepsInv(setting, ch, growth, EMPTY, events, s);
    assert Transparent(setting, ch, s.now, request, s.store[request]);
  }

  /** What holds in every run, whenever its checks come. */
  ghost predicate Sane(setting: Setting, ch: Chain, s: System) {
    && (s.latest.Some? ==> s.latest.value.checkpoint <= ch.latest(s.now))
    && (forall id :: id in s.pending ==> Classify(setting, s.pending[id].request.doc, s.pending[id].request.vars) == Some(s.pending[id].read))
  }

  lemma {:induction false} RunStaysSane(setting: Setting, ch: Chain, growth: nat, s: System, events: seq<Event>, s': System)
    requires Faithful(setting, ch) && Sane(setting, ch, s) && Reaches(setting, ch, growth, s, events, s')
    ensures Sane(setting, ch, s') && s.now <= s'.now
    decreases |events|
  {
    if events != [] {
      NextStaysSane(setting, ch, s, events[0]);
      RunStaysSane(setting, ch, growth, Next(setting, ch, s, events[0]), events[1..], s');
    }
  }

  lemma NextStaysSane(setting: Setting, ch: Chain, s: System, e: Event)
    requires Faithful(setting, ch) && Sane(setting, ch, s) && Enabled(setting, ch, s, e)
    ensures Sane(setting, ch, Next(setting, ch, s, e)) && s.now <= Next(setting, ch, s, e).now
  {
    match e
    case Advance(to) => assert ch.latest(s.now) <= ch.latest(to);
    case Start(id, _) => PendingStaysSane(setting, ch, s, id, Next(setting, ch, s, e).pending[id]);
    case Arrive(id, reply) =>
      var data := if reply.Body? && reply.data.Some? then reply.data.value else JNull;
      var p := s.pending[id];
      PendingStaysSane(setting, ch, s, id, Held(p.request, p.read, s.now, data, p.read.bound.Some? && KnownSettled(s.latest, p.read.bound.value)));
    case Check(id, clock) => CheckStaysSane(setting, ch, s, id, clock);
    case ReadLatest(id, reading, clock) => PendingStaysSane(setting, ch, s, id, s.pending[id]);
  }

  lemma CheckStaysSane(setting: Setting, ch: Chain, s: System, id: nat, clock: int)
    requires Sane(setting, ch, s) && Enabled(setting, ch, s, Check(id, clock))
    ensures Sane(setting, ch, Next(setting, ch, s, Check(id, clock)))
  {
    var p := s.pending[id];
    PendingStaysSane(setting, ch, s, id, Querying(p.request, p.read, p.at, p.data, p.covered));
  }

  lemma PendingStaysSane(setting: Setting, ch: Chain, s: System, id: nat, p: Pending)
    requires Sane(setting, ch, s) && Classify(setting, p.request.doc, p.request.vars) == Some(p.read)
    ensures Sane(setting, ch, s.(pending := s.pending[id := p])) && Sane(setting, ch, Dropped(s, id))
  {
  }

  /**
   * What a caller can check before asking: if the latest checkpoint known at
   * some earlier point of the run, `s0`, already settles the bound, and no
   * pipeline lags by more than the settling distance, a recordable answer to a
   * request that would be classified as it runs is the live answer from then
   * on, however late this check, or any other, comes.
   */
  lemma CoveredAnswerStays(setting: Setting, ch: Chain, growth: nat, before: seq<Event>, s0: System, events: seq<Event>, s: System, id: nat, reply: Reply)
    requires Faithful(setting, ch) && ch.lag <= SETTLED_CHECKPOINTS
    requires Reaches(setting, ch, growth, EMPTY, before, s0) && Reaches(setting, ch, growth, s0, events, s)
    requires Enabled(setting, ch, s, Arrive(id, reply)) && GraphqlRecordable(s.pending[id].read, reply)
    requires s.pending[id].read.bound.Some? ==> KnownSettled(s0.latest, s.pending[id].read.bound.value)
    ensures Transparent(setting, ch, s.now, s.pending[id].request, reply.data.value)
  {
    RunStaysSane(setting, ch, growth, EMPTY, before, s0);
    RunStaysSane(setting, ch, growth, s0, events, s);
    assert ch.latest(s0.now) <= ch.latest(s.now);
    var p := s.pending[id];
    KeptIsTransparent(setting, ch, 0, s.now, Held(p.request, p.read, s.now, reply.data.value, p.read.bound.Some?));
  }

  /** Nothing is written for an unclassified, errored, null or unsettled answer, nor over another entry than its own. */
  lemma WrittenOnlyIfFixed(setting: Setting, ch: Chain, s: System, e: Event, request: Request)
    requires Inv(setting, ch, s) && Enabled(setting, ch, s, e)
    requires var s' := Next(setting, ch, s, e); request in s'.store && !(request in s.store && s.store[request] == s'.store[request])
    ensures (e.Check? || e.ReadLatest?) && e.id in s.pending && !s.pending[e.id].Asked? && s.pending[e.id].request == request
    ensures var s', read := Next(setting, ch, s, e), Classify(setting, request.doc, request.vars);
      && read.Some? && Recordable(read.value, s'.store[request])
      && s.pending[e.id].at <= s.now
      && Run(setting, ch, s.pending[e.id].at, request.doc, request.vars) == Some(s'.store[request])
      && (read.value.bound.Some? ==> read.value.bound.value + SETTLED_CHECKPOINTS <= ch.latest(s.now))
  {
    OnlyKeptIsWritten(setting, ch, s, e, request);
    assert Honest(setting, ch, s.now, s.pending[e.id]);
  }

  /** The store changes only where a pending answer is kept, its bound settled. */
  lemma OnlyKeptIsWritten(setting: Setting, ch: Chain, s: System, e: Event, request: Request)
    requires Enabled(setting, ch, s, e) && (s.latest.Some? ==> s.latest.value.checkpoint <= ch.latest(s.now))
    requires var s' := Next(setting, ch, s, e); request in s'.store && !(request in s.store && s.store[request] == s'.store[request])
    ensures (e.Check? || e.ReadLatest?) && e.id in s.pending && !s.pending[e.id].Asked? && s.pending[e.id].request == request
    ensures Next(setting, ch, s, e).store[request] == s.pending[e.id].data
    ensures s.pending[e.id].read.bound.Some? ==> s.pending[e.id].read.bound.value + SETTLED_CHECKPOINTS <= ch.latest(s.now)
  {
    var s' := Next(setting, ch, s, e);
    if e.Check? {
      assert s' == Kept(s, e.id);
    } else {
      assert s'.store == Kept(s, e.id).store;
    }
  }

  // ---------------------------------------------------------------------------
  // One request as a run
  // ---------------------------------------------------------------------------

  ghost predicate Step(setting: Setting, ch: Chain, growth: nat, s: System, e: Event, s': System) {
    Enabled(setting, ch, s, e) && InTime(ch, growth, s, e) && Next(setting, ch, s, e) == s'
  }

  lemma OneStep(setting: Setting, ch: Chain, growth: nat, s: System, e: Event, s': System, events: seq<Event>, last: System)
    requires Step(setting, ch, growth, s, e, s') && Reaches(setting, ch, growth, s', events, last)
    ensures Reaches(setting, ch, growth, s, [e] + events, last)
  {
    assert ([e] + events)[1..] == events;
  }

  /**
   * One request of the object is a run of the steps above, with the endpoint's
   * own answers, from no pending request to none: the same store, the same
   * latest checkpoint, and every check in time.
   */
  lemma FetchIsRun(setting: Setting, ch: Chain, growth: nat, now: nat, store: map<Request, Json>, latest: Option<Latest>, request: Request, live: Reply,
                   clock: int, reading: Option<nat>, clockAfter: int, served: Reply, store': map<Request, Json>, latest': Option<Latest>)
    returns (events: seq<Event>)
    requires Truthful(setting, ch, now, request, live) && (reading.Some? ==> reading.value <= ch.latest(now))
    requires Fetched(setting, store, latest, request, live, clock, reading, clockAfter, served, store', latest')
    ensures Reaches(setting, ch, growth, System(store, latest, now, map[]), events, System(store', latest', now, map[]))
  {
    var s, s' := System(store, latest, now, map[]), System(store', latest', now, map[]);
    var read := Classify(setting, request.doc, request.vars);
    events := [];
    if read.Some? && request !in store {
      var asked := s.(pending := map[0 := Asked(request, read.value)]);
      assert Reaches(setting, ch, growth, s', [], s');
      if GraphqlRecordable(read.value, live) {
        events := CheckIsRun(setting, ch, growth, s, request, read.value, live, clock, reading, clockAfter, s');
        var held := s.(pending := map[0 := Held(request, read.value, now, live.data.value, read.value.bound.Some? && KnownSettled(latest, read.value.bound.value))]);
        assert Step(setting, ch, growth, asked, Arrive(0, live), held) by {
          assert asked.pending[0 := held.pending[0]] == held.pending;
        }
        OneStep(setting, ch, growth, asked, Arrive(0, live), held, events, s');
      } else {
        assert Step(setting, ch, growth, asked, Arrive(0, live), s) by {
          assert asked.pending - {0} == map[];
        }
        OneStep(setting, ch, growth, asked, Arrive(0, live), s', events, s');
      }
      events := [Arrive(0, live)] + events;
      assert Step(setting, ch, growth, s, Start(0, request), asked) by {
        assert map[][0 := Asked(request, read.value)] == map[0 := Asked(request, read.value)];
      }
      OneStep(setting, ch, growth, s, Start(0, request), asked, events, s');
      events := [Start(0, request)] + events;
    }
  }

  /** From the answer held to its end. */
  lemma CheckIsRun(setting: Setting, ch: Chain, growth: nat, s: System, request: Request, read: ReplayClassifier.Read, live: Reply,
                   clock: int, reading: Option<nat>, clockAfter: int, s': System)
    returns (events: seq<Event>)
    requires GraphqlRecordable(read, live) && Classify(setting, request.doc, request.vars) == Some(read) && request !in s.store && s.pending == map[]
    requires reading.Some? ==> reading.value <= ch.latest(s.now)
    requires Fetched(setting, s.store, s.latest, request, live, clock, reading, clockAfter, live, s'.store, s'.latest)
    requires s'.now == s.now && s'.pending == map[]
    ensures var covered := read.bound.Some? && KnownSettled(s.latest, read.bound.value);
      Reaches(setting, ch, growth, s.(pending := map[0 := Held(request, read, s.now, live.data.value, covered)]), events, s')
  {
    var covered := read.bound.Some? && KnownSettled(s.latest, read.bound.value);
    var held := s.(pending := map[0 := Held(request, read, s.now, live.data.value, covered)]);
    assert held.pending - {0} == map[];
    assert Reaches(setting, ch, growth, s', [], s');
    if read.bound.None? || KnownSettled(s.latest, read.bound.value) || TooSoon(s.latest, clock) {
      assert Step(setting, ch, growth, held, Check(0, clock), s');
      OneStep(setting, ch, growth, held, Check(0, clock), s', [], s');
      events := [Check(0, clock)] + [];
    } else {
      var querying := s.(pending := map[0 := Querying(request, read, s.now, live.data.value, covered)]);
      assert Step(setting, ch, growth, held, Check(0, clock), querying) by {
        assert held.pending[0 := querying.pending[0]] == querying.pending;
      }
      assert Step(setting, ch, growth, querying, ReadLatest(0, reading, clockAfter), s') by {
        assert querying.pending - {0} == map[];
      }
      OneStep(setting, ch, growth, querying, ReadLatest(0, reading, clockAfter), s', [], s');
      events := [ReadLatest(0, reading, clockAfter)] + [];
      OneStep(setting, ch, growth, held, Check(0, clock), querying, events, s');
      events := [Check(0, clock)] + events;
    }
  }
}
