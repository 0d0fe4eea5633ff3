/** The caches in front of the token scan: one scan per network at a time, failed ones never kept. */
module DiscoveryCache {
  import opened Wrappers
  import opened Discovery

  datatype Scan = Scan(tokens: seq<Token>, report: Report)

  datatype Entry<T> = Entry(value: T, fetchedAt: int)

  const TOKEN_CACHE_TTL_MS: int := 21_600_000

  predicate Fresh<T>(entry: Entry<T>, now: int) {
    now - entry.fetchedAt < TOKEN_CACHE_TTL_MS
  }

  /** Scans kept and scans in flight, by network; a scan in flight goes by its number. */
  datatype Caches = Caches(scans: map<Network, Entry<Scan>>, inFlight: map<Network, nat>)

  /** A caller is answered from the cache, waits for a scan in flight, or waits for the one it starts. */
  datatype Reply = Cached(scan: Scan) | Joins(id: nat) | Starts(id: nat)

  function Asked(c: Caches, key: Network, now: int, id: nat): (Reply, Caches) {
    if key in c.scans && Fresh(c.scans[key], now) then (Cached(c.scans[key].value), c)
    else if key in c.inFlight then (Joins(c.inFlight[key]), c)
    else (Starts(id), c.(inFlight := c.inFlight[key := id]))
  }

  /** A scan worth keeping. */
  predicate Keepable(scan: Scan) {
    scan.tokens != [] && !scan.report.failed
  }

  function Arrived(c: Caches, key: Network, scan: Scan, now: int): Caches {
    if Keepable(scan) then c.(scans := c.scans[key := Entry(scan, now)]) else c
  }

  function Cleared(c: Caches, key: Network): Caches {
    c.(inFlight := c.inFlight - {key})
  }

  /** What a symbol lookup says: the token, and how far the scan behind it got unless an earlier lookup knew. */
  datatype Answer = Answer(token: Option<Token>, report: Option<Report>)

  class TokenFinder {
    const lower: string -> string
    const maxPages: nat
    var tokenCache: map<Network, Entry<Scan>>
    var fetchInProgress: map<Network, nat>
    var symbolCache: map<(Network, string), Entry<Token>>

    constructor (lower: string -> string, maxPages: nat)
      ensures this.lower == lower && this.maxPages == maxPages
      ensures View() == Caches(map[], map[]) && symbolCache == map[]
    {
      this.lower, this.maxPages := lower, maxPages;
      tokenCache, fetchInProgress, symbolCache := map[], map[], map[];
    }

    function View(): Caches reads this {
      Caches(tokenCache, fetchInProgress)
    }

    /** Every token kept for a symbol has that symbol. */
    ghost predicate Valid() reads this {
      forall key :: key in symbolCache ==> lower(symbolCache[key].value.symbol) == key.1
    }

    method FetchDiscoveryTokens(key: Network, now: int, id: nat) returns (reply: Reply)
      modifies this`fetchInProgress
      ensures (reply, View()) == Asked(old(View()), key, now, id)
    {
      if key in tokenCache && now - tokenCache[key].fetchedAt < TOKEN_CACHE_TTL_MS {
        return Cached(tokenCache[key].value);
      }
      if key in fetchInProgress {
        return Joins(fetchInProgress[key]);
      }
      fetchInProgress := fetchInProgress[key := id];
      reply := Starts(id);
    }

    method ScanArrived(key: Network, scan: Scan, now: int)
      modifies this`tokenCache
      ensures View() == Arrived(old(View()), key, scan, now)
    {
      if |scan.tokens| > 0 && !scan.report.failed {
        tokenCache := tokenCache[key := Entry(scan, now)];
      }
    }

    method ScanCleared(key: Network)
      modifies this`fetchInProgress
      ensures View() == Cleared(old(View()), key)
    {
      fetchInProgress := fetchInProgress - {key};
    }

    /**
     * Resolves a symbol: from an earlier answer, from a kept scan, or by
     * searching the pages as they come. Whichever answers, the token has the
     * symbol, a search finds what the whole scan would have, and the report is
     * that of the kept scan or of the pages the search read.
     */
    method ScanForSymbol(service: Service, network: Network, query: string, now: int) returns (a: Answer)
      requires Valid()
      modifies this`symbolCache
      ensures Valid()
      ensures a.token.Some? ==> lower(a.token.value.symbol) == lower(query)
      ensures var key := (network, lower(query));
        if key in old(symbolCache) && Fresh(old(symbolCache)[key], now) then
          a == Answer(Some(old(symbolCache)[key].value), None) && symbolCache == old(symbolCache)
        else
          && a.token == FirstMatch(lower, if network in tokenCache && Fresh(tokenCache[network], now)
                                          then tokenCache[network].value.tokens
                                          else Concat(WalkFrom(service, NOTHING, None, maxPages, 0).batches), lower(query))
          && a.report == Some(if network in tokenCache && Fresh(tokenCache[network], now)
                              then tokenCache[network].value.report.(failed := false)
                              else WalkFrom(service, Holds(lower, lower(query)), None, maxPages, 0).report)
          && symbolCache == if a.token.Some? then old(symbolCache)[key := Entry(a.token.value, now)] else old(symbolCache)
    {
      var q := lower(query);
      var key := (network, q);
      if key in symbolCache && now - symbolCache[key].fetchedAt < TOKEN_CACHE_TTL_MS {
        return Answer(Some(symbolCache[key].value), None);
      }
      if network in tokenCache && now - tokenCache[network].fetchedAt < TOKEN_CACHE_TTL_MS {
        var scan := tokenCache[network].value;
        var fromScan := FirstMatch(lower, scan.tokens, q);
        if fromScan.Some? {
          symbolCache := symbolCache[key := Entry(fromScan.value, now)];
        }
        return Answer(fromScan, Some(scan.report.(failed := false)));
      }
      var walk := PageCoinMetadata(service, Holds(lower, q), None, maxPages);
      StreamingRefinesScan(lower, service, None, maxPages, 0, q);
      var exact := Found(lower, walk.batches, q);
      if exact.Some? {
        symbolCache := symbolCache[key := Entry(exact.value, now)];
      }
      a := Answer(exact, Some(walk.report));
    }
  }

  // ----- Over whole runs -----

  /** A scan started: still reading, or arrived and not yet cleared. */
  datatype Running = Reading(key: Network) | Done(key: Network, scan: Scan)

  /** The caches, the scans started and not cleared, every scan that ever arrived, and the next scan's number. */
  datatype World = World(caches: Caches, running: map<nat, Running>, arrived: map<nat, (Network, Scan)>, next: nat)

  const IDLE := World(Caches(map[], map[]), map[], map[], 0)

  datatype Event = Ask(key: Network, now: int) | Arrive(id: nat, scan: Scan, now: int) | Clear(id: nat)

  predicate Enabled(w: World, e: Event) {
    match e
    case Ask(_, _) => true
    case Arrive(id, _, _) => id in w.running && w.running[id].Reading?
    case Clear(id) => id in w.running && w.running[id].Done?
  }

  function After(w: World, e: Event): World
    requires Enabled(w, e)
  {
    match e
    case Ask(key, now) =>
      var (reply, caches) := Asked(w.caches, key, now, w.next);
      if reply.Starts? then World(caches, w.running[w.next := Reading(key)], w.arrived, w.next + 1) else w
    case Arrive(id, scan, now) =>
      var key := w.running[id].key;
      World(Arrived(w.caches, key, scan, now), w.running[id := Done(key, scan)], w.arrived[id := (key, scan)], w.next)
    case Clear(id) =>
      w.(caches := Cleared(w.caches, w.running[id].key), running := w.running - {id})
  }

  /** The scans in flight are exactly those running, each under its own network. */
  ghost predicate OnePerNetwork(w: World) {
    && (forall id :: id in w.running ==> w.running[id].key in w.caches.inFlight && w.caches.inFlight[w.running[id].key] == id)
    && (forall key :: key in w.caches.inFlight ==> w.caches.inFlight[key] in w.running && w.running[w.caches.inFlight[key]].key == key)
    && (forall id :: id in w.running ==> id < w.next)
  }

  /** Every scan kept arrived under its network, did not fail and found something. */
  ghost predicate KeptArrived(w: World) {
    && (forall key :: key in w.caches.scans ==> Keepable(w.caches.scans[key].value) && SomeArrived(w, key, w.caches.scans[key].value))
    && (forall id :: id in w.arrived ==> id < w.next)
    && (forall id :: id in w.running && w.running[id].Reading? ==> id !in w.arrived)
  }

  ghost predicate SomeArrived(w: World, key: Network, scan: Scan) {
    exists id :: id in w.arrived && w.arrived[id] == (key, scan)
  }

  ghost predicate Inv(w: World) {
    OnePerNetwork(w) && KeptArrived(w)
  }

  lemma EventKeepsInv(w: World, e: Event)
    requires Inv(w) && Enabled(w, e)
    ensures Inv(After(w, e))
  {
    var w' := After(w, e);
    forall key | key in w'.caches.scans
      ensures Keepable(w'.caches.scans[key].value) && SomeArrived(w', key, w'.caches.scans[key].value)
    {
      var scan := w'.caches.scans[key].value;
      if e.Arrive? && Keepable(e.scan) && key == w.running[e.id].key {
        assert w'.arrived[e.id] == (key, scan);
      } else {
        assert SomeArrived(w, key, scan);
        var id :| id in w.arrived && w.arrived[id] == (key, scan);
        assert w'.arrived[id] == (key, scan);
      }
    }
  }

  /** A run of events, each possible when it happens. */
  ghost predicate Runs(w: World, events: seq<Event>, w': World)
    decreases |events|
  {
    if events == [] then w == w'
    else Enabled(w, events[0]) && Runs(After(w, events[0]), events[1..], w')
  }

  /** Whatever happens, in whatever order: one scan per network at a time, and only good scans are kept. */
  lemma {:induction false} RunsKeepInv(w: World, events: seq<Event>, w': World)
    requires Inv(w) && Runs(w, events, w')
    ensures Inv(w')
    decreases |events|
  {
    if events != [] {
      EventKeepsInv(w, events[0]);
      RunsKeepInv(After(w, events[0]), events[1..], w');
    }
  }

  /** At most one scan of a network is in flight, however its callers arrive. */
  lemma OneScanInFlight(events: seq<Event>, w: World, a: nat, b: nat)
    requires Runs(IDLE, events, w) && a in w.running && b in w.running && w.running[a].key == w.running[b].key
    ensures a == b
  {
    RunsKeepInv(IDLE, events, w);
  }

  /** What a caller gets: a kept scan of its own network that did not fail, or the one scan of its network in flight. */
  lemma RepliesAreHonest(events: seq<Event>, w: World, key: Network, now: int)
    requires Runs(IDLE, events, w)
    ensures match Asked(w.caches, key, now, w.next).0
      case Cached(scan) => Keepable(scan) && SomeArrived(w, key, scan)
      case Joins(id) => id in w.running && w.running[id].key == key
      case Starts(id) => forall other :: other in w.running ==> w.running[other].key != key
  {
    RunsKeepInv(IDLE, events, w);
  }

}
