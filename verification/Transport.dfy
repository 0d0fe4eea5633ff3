/** Calls interleaved over slots and a window. */
module Transport {
  import opened Wrappers
  import opened Semaphore
  import W = RateWindow

  // A step is what one call does between two points where it yields.

  // ---------------------------------------------------------------------------
  // Configuration and state
  // ---------------------------------------------------------------------------

  datatype Options = Options(attempts: nat, concurrency: nat, baseDelayMs: real, maxDelayMs: real)

  /**
   * `client[c]` is the client call `c` goes through. `limit` is the rate limit
   * of the host, if it has one.
   */
  datatype Config = Config(clients: seq<Options>, client: seq<nat>, limit: Option<nat>, windowMs: real)

  predicate WellFormed(cfg: Config) {
    && (forall c :: 0 <= c < |cfg.client| ==> cfg.client[c] < |cfg.clients|)
    && (forall k :: 0 <= k < |cfg.clients| ==> cfg.clients[k].baseDelayMs >= 0.0 && cfg.clients[k].maxDelayMs >= 0.0)
    && (cfg.limit.Some? ==> cfg.limit.value >= 1)
    && cfg.windowMs >= 0.0
  }

  /** What a thrown error means to the `catch` of the loop: an abort may carry any reason. */
  datatype Failure = TimedOut | Connection | Fatal

  datatype ReadResult = Value | Transient | Broken

  datatype Phase =
    | Start                       // top of the loop, no slot
    | Queued                      // waiting for a slot
    | Slotted                     // just given a slot
    | Turn                        // slot held, in the rate window's queue
    | Refused(wake: real)         // at the head of that queue, told to wait until `wake`
    | Cleared                     // the window granted a start
    | Fetching
    | CatchBackoff(delay: real)   // connection failure: the slot is still held
    | Answered(status: nat)       // response in hand, slot given up
    | Reading
    | FreeBackoff(delay: real)    // retryable answer: no slot held
    | Done

  /** A call with its history: fetches issued, window grants, slots acquired and released. */
  datatype Call = Call(phase: Phase, attempt: nat, fetches: nat, grants: nat, acquired: nat, released: nat)

  const FIRST := Call(Start, 1, 0, 0, 0, 0)

  /** A call that left the window's queue, with a start or because its wait failed. */
  datatype Passage = Passage(caller: nat, granted: bool)

  /** The history of the window's queue: who joined it, and who left it, in order. */
  datatype Turns = Turns(joined: seq<nat>, passed: seq<Passage>)

  datatype State = State(calls: seq<Call>, lanes: seq<Lane>, queue: seq<nat>, window: W.Window, clock: real, turns: Turns)

  predicate Holds(p: Phase) {
    p.Slotted? || p.Turn? || p.Refused? || p.Cleared? || p.Fetching? || p.CatchBackoff?
  }

  predicate InTurn(p: Phase) {
    p.Turn? || p.Refused?
  }

  ghost function Init(cfg: Config): State {
    State(seq(|cfg.client|, _ => FIRST), seq(|cfg.clients|, _ => IDLE), [], W.FRESH, 0.0, Turns([], []))
  }

  // ---------------------------------------------------------------------------
  // Steps
  // ---------------------------------------------------------------------------

  function Min(x: real, y: real): real {
    if x <= y then x else y
  }

  /** The base, doubled `n` times. */
  function Grown(base: real, n: nat): (x: real)
    ensures base >= 0.0 ==> x >= 0.0
  {
    if n == 0 then base else 2.0 * Grown(base, n - 1)
  }

  /** Half of it, and a random part of the other half. */
  function Jittered(x: real, jitter: real): (y: real)
    ensures x >= 0.0 && 0.0 <= jitter < 1.0 ==> x / 2.0 <= y <= x
  {
    var part := 0.5 + jitter / 2.0;
    assert x >= 0.0 && 0.0 <= jitter < 1.0 ==> x / 2.0 <= x * part <= x by {
      if x >= 0.0 && 0.0 <= jitter < 1.0 {
        Shrinks(x, part);
      }
    }
    x * part
  }

  lemma Shrinks(x: real, part: real)
    requires x >= 0.0 && 0.5 <= part <= 1.0
    ensures x / 2.0 <= x * part <= x
  {
    NonNegativeProduct(x, part - 0.5);
    NonNegativeProduct(x, 1.0 - part);
    assert x * (part - 0.5) == x * part - x / 2.0 && x * (1.0 - part) == x - x * part;
  }

  lemma NonNegativeProduct(x: real, y: real)
    requires x >= 0.0 && y >= 0.0
    ensures x * y >= 0.0
  {
  }

  /** Jittered exponential backoff, capped; `jitter` is in [0, 1). */
  function Backoff(o: Options, attempt: nat, jitter: real): real
    requires attempt >= 1
  {
    Min(o.maxDelayMs, Jittered(Grown(o.baseDelayMs, attempt - 1), jitter))
  }

  datatype Event =
    | Tick(elapsed: real)
    | Begin(c: nat, aborted: bool)
    | Resume(c: nat, abort: Option<Failure>, jitter: real)
    | Poll(c: nat)
    | TurnFails(c: nat, failure: Failure, jitter: real)
    | Launch(c: nat, abort: Option<Failure>, jitter: real)
    | Answer(c: nat, status: nat)
    | Fail(c: nat, failure: Failure, jitter: real)
    | Decide(c: nat, asked: Option<real>, jitter: real)
    | ReadDone(c: nat, result: ReadResult, jitter: real)
    | Wake(c: nat, aborted: bool)

  predicate IsJitter(x: real) {
    0.0 <= x < 1.0
  }

  predicate Sized(cfg: Config, s: State) {
    |s.calls| == |cfg.client| && |s.lanes| == |cfg.clients|
  }

  predicate Enabled(cfg: Config, s: State, e: Event) {
    && Sized(cfg, s)
    && (e.Tick? ==> e.elapsed >= 0.0)
    && (!e.Tick? ==> e.c < |s.calls| && s.calls[e.c].attempt >= 1 && Ready(cfg, s, s.calls[e.c].phase, e))
  }

  /** Call `e.c`, in phase `p`, can take step `e`. */
  predicate Ready(cfg: Config, s: State, p: Phase, e: Event)
    requires !e.Tick?
  {
    match e
    case Begin(_, _) => p.Start?
    case Resume(_, _, jitter) => p.Slotted? && IsJitter(jitter)
    case Poll(c) => s.queue != [] && s.queue[0] == c && cfg.limit.Some?
      && InTurn(p)
    case TurnFails(c, _, jitter) => s.queue != [] && s.queue[0] == c && InTurn(p) && IsJitter(jitter)
    case Launch(_, _, jitter) => p.Cleared? && IsJitter(jitter)
    case Answer(_, _) => p.Fetching?
    case Fail(_, _, jitter) => p.Fetching? && IsJitter(jitter)
    case Decide(_, asked, jitter) => p.Answered? && IsJitter(jitter) && (asked.Some? ==> asked.value >= 0.0)
    case ReadDone(_, _, jitter) => p.Reading? && IsJitter(jitter)
    case Wake(_, _) => p.CatchBackoff? || p.FreeBackoff?
  }

  function OptionsOf(cfg: Config, c: nat): Options
    requires WellFormed(cfg) && c < |cfg.client|
  {
    cfg.clients[cfg.client[c]]
  }

  predicate IsLast(o: Options, attempt: nat) {
    attempt >= o.attempts
  }

  function Become(s: State, c: nat, call: Call): State
    requires c < |s.calls|
  {
    s.(calls := s.calls[c := call])
  }

  /** `limiter.acquire()`. */
  function Enter(cfg: Config, s: State, c: nat): State
    requires WellFormed(cfg) && Sized(cfg, s) && c < |s.calls|
  {
    var k, max := cfg.client[c], OptionsOf(cfg, c).concurrency;
    var call := s.calls[c];
    var call' := if Free(s.lanes[k], max) then call.(phase := Slotted, acquired := call.acquired + 1) else call.(phase := Queued);
    Become(s, c, call').(lanes := s.lanes[k := Acquired(s.lanes[k], max, c)])
  }

  /** `limiter.release()`: the call goes on as `call`, and the head waiter of its lane, if any, has the slot. */
  function Leave(cfg: Config, s: State, c: nat, call: Call): State
    requires WellFormed(cfg) && Sized(cfg, s) && c < |s.calls|
  {
    var k := cfg.client[c];
    var lane := s.lanes[k];
    var left := Become(s, c, call.(released := call.released + 1));
    if lane.active == 0 then left
    else
      var handed := match Next(lane)
        case Some(n) =>
          if n < |left.calls|
          then Become(left, n, left.calls[n].(phase := Slotted, acquired := left.calls[n].acquired + 1))
          else left
        case None => left;
      handed.(lanes := s.lanes[k := Released(lane)])
  }

  /** The `catch` and `finally` of one attempt. */
  function Caught(cfg: Config, s: State, c: nat, failure: Failure, jitter: real): State
    requires WellFormed(cfg) && Sized(cfg, s) && c < |s.calls| && s.calls[c].attempt >= 1
  {
    var o, call := OptionsOf(cfg, c), s.calls[c];
    if failure.Connection? && !IsLast(o, call.attempt)
    then Become(s, c, call.(phase := CatchBackoff(Backoff(o, call.attempt, jitter))))
    else Leave(cfg, s, c, call.(phase := Done))
  }

  function Fetch(s: State, c: nat): State
    requires c < |s.calls|
  {
    Become(s, c, s.calls[c].(phase := Fetching, fetches := s.calls[c].fetches + 1))
  }

  /** The call joins the window's queue. */
  function Joined(s: State, c: nat): State
    requires c < |s.calls|
  {
    Become(s, c, s.calls[c].(phase := Turn)).(queue := s.queue + [c], turns := s.turns.(joined := s.turns.joined + [c]))
  }

  /** The head of the window's queue steps out of it and goes on as `call`. */
  function Popped(s: State, c: nat, call: Call, granted: bool): State
    requires c < |s.calls| && s.queue != []
  {
    Become(s, c, call).(queue := s.queue[1..], turns := s.turns.(passed := s.turns.passed + [Passage(c, granted)]))
  }

  function Polled(cfg: Config, s: State, c: nat): State
    requires cfg.limit.Some? && cfg.limit.value >= 1 && c < |s.calls| && s.queue != []
  {
    var limit := cfg.limit.value;
    var window := W.Polled(s.window, limit, cfg.windowMs, s.clock);
    if W.Grants(s.window, limit, cfg.windowMs, s.clock)
    then Popped(s, c, s.calls[c].(phase := Cleared, grants := s.calls[c].grants + 1), true).(window := window)
    else
      var wake := s.clock + W.Asked(s.window, limit, cfg.windowMs, s.clock);
      Become(s, c, s.calls[c].(phase := Refused(wake))).(window := window)
  }

  function Retried(call: Call): Call {
    call.(phase := Start, attempt := call.attempt + 1)
  }

  function NextState(cfg: Config, s: State, e: Event): State
    requires WellFormed(cfg) && Enabled(cfg, s, e)
  {
    match e
    case Tick(elapsed) => s.(clock := s.clock + elapsed)
    case Begin(c, aborted) => if aborted then Become(s, c, s.calls[c].(phase := Done)) else Enter(cfg, s, c)
    case Resume(c, abort, jitter) =>
      if abort.Some? then Caught(cfg, s, c, abort.value, jitter)
      else if cfg.limit.None? then Fetch(s, c)
      else Joined(s, c)
    case Poll(c) => Polled(cfg, s, c)
    case TurnFails(c, failure, jitter) => Caught(cfg, Popped(s, c, s.calls[c].(phase := Slotted), false), c, failure, jitter)
    case Launch(c, abort, jitter) => if abort.Some? then Caught(cfg, s, c, abort.value, jitter) else Fetch(s, c)
    case Answer(c, status) => Leave(cfg, s, c, s.calls[c].(phase := Answered(status)))
    case Fail(c, failure, jitter) => Caught(cfg, s, c, failure, jitter)
    case Decide(c, asked, jitter) =>
      var o, call := OptionsOf(cfg, c), s.calls[c];
      if !IsLast(o, call.attempt) && (call.phase.status == 429 || call.phase.status >= 500)
      then
        var delay := if asked.None? then Backoff(o, call.attempt, jitter) else Min(asked.value, o.maxDelayMs);
        Become(s, c, call.(phase := FreeBackoff(delay)))
      else Become(s, c, call.(phase := Reading))
    case ReadDone(c, result, jitter) =>
      var o, call := OptionsOf(cfg, c), s.calls[c];
      if result.Transient? && !IsLast(o, call.attempt)
      then Become(s, c, call.(phase := FreeBackoff(Backoff(o, call.attempt, jitter))))
      else Become(s, c, call.(phase := Done))
    case Wake(c, aborted) =>
      var call := s.calls[c];
      var call' := if aborted then call.(phase := Done) else Retried(call);
      if call.phase.CatchBackoff? then Leave(cfg, s, c, call') else Become(s, c, call')
  }

  // ---------------------------------------------------------------------------
  // Counting slots
  // ---------------------------------------------------------------------------

  /** Calls of client `k`, among the first `n`, that hold a slot. */
  function Held(cfg: Config, calls: seq<Call>, k: nat, n: nat): nat
    requires n <= |calls| && n <= |cfg.client|
  {
    if n == 0 then 0
    else Held(cfg, calls, k, n - 1) + if cfg.client[n - 1] == k && Holds(calls[n - 1].phase) then 1 else 0
  }

  lemma {:induction false} HeldUpdate(cfg: Config, calls: seq<Call>, k: nat, n: nat, c: nat, call: Call)
    requires n <= |calls| && n <= |cfg.client| && c < |calls| == |cfg.client|
    ensures Held(cfg, calls[c := call], k, n) ==
            Held(cfg, calls, k, n)
            - (if c < n && cfg.client[c] == k && Holds(calls[c].phase) then 1 else 0)
            + (if c < n && cfg.client[c] == k && Holds(call.phase) then 1 else 0)
  {
    if n > 0 {
      HeldUpdate(cfg, calls, k, n - 1, c, call);
    }
  }

  lemma {:induction false} SomeHolder(cfg: Config, calls: seq<Call>, k: nat, n: nat) returns (c: nat)
    requires n <= |calls| && n <= |cfg.client| && Held(cfg, calls, k, n) > 0
    ensures c < n && cfg.client[c] == k && Holds(calls[c].phase)
  {
    if cfg.client[n - 1] == k && Holds(calls[n - 1].phase) {
      c := n - 1;
    } else {
      c := SomeHolder(cfg, calls, k, n - 1);
    }
  }

  // ---------------------------------------------------------------------------
  // The invariant
  // ---------------------------------------------------------------------------

  predicate Distinct(s: seq<nat>) {
    forall i, j :: 0 <= i < j < |s| ==> s[i] != s[j]
  }

  ghost predicate LaneOk(cfg: Config, s: State, k: nat)
    requires WellFormed(cfg) && Sized(cfg, s) && k < |cfg.clients|
  {
    var lane := s.lanes[k];
    && Orderly(lane, cfg.clients[k].concurrency)
    && lane.active == Held(cfg, s.calls, k, |s.calls|)
    && Distinct(lane.waiting)
    && (forall c :: c in lane.waiting ==> c < |s.calls| && cfg.client[c] == k && s.calls[c].phase.Queued?)
    && (forall c :: 0 <= c < |s.calls| && cfg.client[c] == k && s.calls[c].phase.Queued? ==> c in lane.waiting)
  }

  ghost predicate QueueOk(cfg: Config, s: State) {
    && Distinct(s.queue)
    && (forall c :: c in s.queue ==> c < |s.calls| && InTurn(s.calls[c].phase))
    && (forall c :: 0 <= c < |s.calls| && InTurn(s.calls[c].phase) ==> c in s.queue)
    && (forall c :: c in s.queue && s.calls[c].phase.Refused? ==> c == s.queue[0])
    && (s.queue != [] ==> cfg.limit.Some?)
  }

  /** The refused caller at the head of the queue will find room once it has waited as long as asked. */
  ghost predicate WindowOk(cfg: Config, s: State) {
    cfg.limit.Some? ==>
      && W.Sound(s.window, cfg.limit.value, cfg.windowMs, s.clock)
      && forall c :: c in s.queue && c < |s.calls| && s.calls[c].phase.Refused? ==>
           s.window.starts != [] && s.calls[c].phase.wake >= s.window.starts[0] + cfg.windowMs
  }

  function Attempts(o: Options): nat {
    if o.attempts == 0 then 1 else o.attempts
  }

  /** Still ahead of the fetch of its current attempt. */
  predicate BeforeFetch(p: Phase) {
    p.Start? || p.Queued? || p.Slotted? || InTurn(p) || p.Cleared?
  }

  ghost predicate CallOk(limited: bool, o: Options, call: Call) {
    && 1 <= call.attempt <= Attempts(o)
    && call.acquired == call.released + (if Holds(call.phase) then 1 else 0)
    && call.acquired <= call.attempt
    && (call.phase.Start? || call.phase.Queued? ==> call.acquired < call.attempt)
    && call.fetches <= call.attempt
    && (BeforeFetch(call.phase) ==> call.fetches < call.attempt)
    && (limited ==> call.fetches <= call.grants && (call.phase.Cleared? ==> call.fetches < call.grants))
    && (call.phase.CatchBackoff? || call.phase.FreeBackoff? ==> 0.0 <= call.phase.delay <= o.maxDelayMs && call.attempt < o.attempts)
  }

  ghost predicate LanesOk(cfg: Config, s: State)
    requires WellFormed(cfg) && Sized(cfg, s)
  {
    forall k :: 0 <= k < |cfg.clients| ==> LaneOk(cfg, s, k)
  }

  ghost predicate CallsOk(cfg: Config, s: State)
    requires WellFormed(cfg) && Sized(cfg, s)
  {
    forall c :: 0 <= c < |s.calls| ==> CallOk(cfg.limit.Some?, OptionsOf(cfg, c), s.calls[c])
  }

  ghost predicate Inv(cfg: Config, s: State) {
    WellFormed(cfg) && Sized(cfg, s) && LanesOk(cfg, s) && QueueOk(cfg, s) && WindowOk(cfg, s) && CallsOk(cfg, s)
  }

  // ---------------------------------------------------------------------------
  // The three ways a step touches the semaphores
  // ---------------------------------------------------------------------------

  lemma BecomeKeepsLanes(cfg: Config, s: State, c: nat, call: Call)
    requires WellFormed(cfg) && Sized(cfg, s) && LanesOk(cfg, s) && c < |s.calls|
    requires Holds(call.phase) == Holds(s.calls[c].phase) && !call.phase.Queued? && !s.calls[c].phase.Queued?
    ensures LanesOk(cfg, Become(s, c, call))
  {
    forall k | 0 <= k < |cfg.clients| ensures LaneOk(cfg, Become(s, c, call), k) {
      assert LaneOk(cfg, s, k);
      HeldUpdate(cfg, s.calls, k, |s.calls|, c, call);
    }
  }

  lemma EnterKeepsLanes(cfg: Config, s: State, c: nat)
    requires WellFormed(cfg) && Sized(cfg, s) && LanesOk(cfg, s) && c < |s.calls|
    requires !Holds(s.calls[c].phase) && !s.calls[c].phase.Queued?
    ensures LanesOk(cfg, Enter(cfg, s, c))
  {
    var s' := Enter(cfg, s, c);
    var own := cfg.client[c];
    forall k | 0 <= k < |cfg.clients| ensures LaneOk(cfg, s', k) {
      assert LaneOk(cfg, s, k);
      HeldUpdate(cfg, s.calls, k, |s.calls|, c, s'.calls[c]);
      if k == own {
        AcquireKeepsOrder(s.lanes[k], cfg.clients[k].concurrency, c);
        assert forall x :: x in s.lanes[k].waiting ==> x != c;
      }
    }
  }

  lemma HolderCounts(cfg: Config, s: State, c: nat)
    requires WellFormed(cfg) && Sized(cfg, s) && c < |s.calls| && LaneOk(cfg, s, cfg.client[c]) && Holds(s.calls[c].phase)
    ensures s.lanes[cfg.client[c]].active > 0
  {
    HeldUpdate(cfg, s.calls, cfg.client[c], |s.calls|, c, FIRST);
  }

  /** Releasing keeps the count of slots right, whether the slot is freed or handed over. */
  lemma LeaveKeepsLanes(cfg: Config, s: State, c: nat, call: Call)
    requires WellFormed(cfg) && Sized(cfg, s) && LanesOk(cfg, s) && c < |s.calls|
    requires Holds(s.calls[c].phase) && !Holds(call.phase) && !call.phase.Queued?
    ensures LanesOk(cfg, Leave(cfg, s, c, call))
  {
    assert LaneOk(cfg, s, cfg.client[c]);
    HolderCounts(cfg, s, c);
    forall k | 0 <= k < |cfg.clients| ensures LaneOk(cfg, Leave(cfg, s, c, call), k) {
      assert LaneOk(cfg, s, k);
      if k == cfg.client[c] {
        LeaveKeepsOwnLane(cfg, s, c, call);
      } else {
        LeaveKeepsOtherLane(cfg, s, c, call, k);
      }
    }
  }

  lemma LeaveKeepsOwnLane(cfg: Config, s: State, c: nat, call: Call)
    requires WellFormed(cfg) && Sized(cfg, s) && c < |s.calls| && LaneOk(cfg, s, cfg.client[c])
    requires Holds(s.calls[c].phase) && !Holds(call.phase) && !call.phase.Queued? && s.lanes[cfg.client[c]].active > 0
    ensures LaneOk(cfg, Leave(cfg, s, c, call), cfg.client[c])
  {
    var k := cfg.client[c];
    ReleaseKeepsOrder(s.lanes[k], cfg.clients[k].concurrency);
    if s.lanes[k].waiting == [] {
      HeldUpdate(cfg, s.calls, k, |s.calls|, c, call.(released := call.released + 1));
    } else {
      HandOver(cfg, s, c, call);
    }
  }

  /** The slot passes from the one call to the first that waits. */
  lemma HandOver(cfg: Config, s: State, c: nat, call: Call)
    requires WellFormed(cfg) && Sized(cfg, s) && c < |s.calls| && LaneOk(cfg, s, cfg.client[c])
    requires Holds(s.calls[c].phase) && !Holds(call.phase) && !call.phase.Queued? && s.lanes[cfg.client[c]].active > 0
    requires s.lanes[cfg.client[c]].waiting != []
    requires Orderly(Released(s.lanes[cfg.client[c]]), cfg.clients[cfg.client[c]].concurrency)
    ensures LaneOk(cfg, Leave(cfg, s, c, call), cfg.client[c])
  {
    var k := cfg.client[c];
    var left := Become(s, c, call.(released := call.released + 1));
    var s' := Leave(cfg, s, c, call);
    var waiting := s.lanes[k].waiting;
    var n := waiting[0];
    assert n in waiting;
    assert waiting == [n] + waiting[1..];
    assert s'.lanes[k].waiting == waiting[1..] && Distinct(waiting[1..]) && n !in waiting[1..];
    HeldUpdate(cfg, s.calls, k, |s.calls|, c, left.calls[c]);
    HeldUpdate(cfg, left.calls, k, |s.calls|, n, s'.calls[n]);
    forall x | x in waiting[1..] ensures x < |s'.calls| && cfg.client[x] == k && s'.calls[x].phase.Queued? {
      assert x in waiting && x != n && x != c;
    }
  }

  lemma LeaveKeepsOtherLane(cfg: Config, s: State, c: nat, call: Call, k: nat)
    requires WellFormed(cfg) && Sized(cfg, s) && c < |s.calls| && LaneOk(cfg, s, cfg.client[c])
    requires k < |cfg.clients| && k != cfg.client[c] && LaneOk(cfg, s, k)
    requires Holds(s.calls[c].phase) && !Holds(call.phase) && !call.phase.Queued?
    ensures LaneOk(cfg, Leave(cfg, s, c, call), k)
  {
    var own := s.lanes[cfg.client[c]];
    var left := Become(s, c, call.(released := call.released + 1));
    var s' := Leave(cfg, s, c, call);
    HeldUpdate(cfg, s.calls, k, |s.calls|, c, left.calls[c]);
    if own.waiting != [] {
      var n := own.waiting[0];
      assert n in own.waiting;
      HeldUpdate(cfg, left.calls, k, |s.calls|, n, s'.calls[n]);
    }
  }

  // ---------------------------------------------------------------------------
  // Every step keeps the invariant
  // ---------------------------------------------------------------------------

  /** Steps that leave the window, its queue and the callers in that queue alone. */
  lemma TurnsUntouched(cfg: Config, s: State, s': State)
    requires QueueOk(cfg, s) && WindowOk(cfg, s)
    requires |s'.calls| == |s.calls| && s'.queue == s.queue && s'.window == s.window && s'.clock == s.clock
    requires forall c :: 0 <= c < |s.calls| ==>
      (InTurn(s'.calls[c].phase) <==> InTurn(s.calls[c].phase)) && (InTurn(s.calls[c].phase) ==> s'.calls[c].phase == s.calls[c].phase)
    ensures QueueOk(cfg, s') && WindowOk(cfg, s')
  {
  }

  lemma BecomeKeepsInv(cfg: Config, s: State, c: nat, call: Call)
    requires Inv(cfg, s) && c < |s.calls|
    requires Holds(call.phase) == Holds(s.calls[c].phase) && !call.phase.Queued? && !s.calls[c].phase.Queued?
    requires !InTurn(call.phase) && !InTurn(s.calls[c].phase)
    requires CallOk(cfg.limit.Some?, OptionsOf(cfg, c), call)
    ensures Inv(cfg, Become(s, c, call))
  {
    BecomeKeepsLanes(cfg, s, c, call);
    TurnsUntouched(cfg, s, Become(s, c, call));
  }

  lemma EnterKeepsInv(cfg: Config, s: State, c: nat)
    requires Inv(cfg, s) && c < |s.calls| && s.calls[c].phase.Start?
    ensures Inv(cfg, Enter(cfg, s, c))
  {
    EnterKeepsLanes(cfg, s, c);
    TurnsUntouched(cfg, s, Enter(cfg, s, c));
  }

  lemma HandedOver(limited: bool, o: Options, call: Call)
    requires CallOk(limited, o, call) && call.phase.Queued?
    ensures CallOk(limited, o, call.(phase := Slotted, acquired := call.acquired + 1))
  {
  }

  lemma UpdateKeepsCalls(cfg: Config, s: State, c: nat, call: Call)
    requires WellFormed(cfg) && Sized(cfg, s) && CallsOk(cfg, s) && c < |s.calls|
    requires CallOk(cfg.limit.Some?, OptionsOf(cfg, c), call)
    ensures CallsOk(cfg, Become(s, c, call))
  {
  }

  /** Besides the caller itself, a release changes at most the waiter it names. */
  lemma LeaveChanges(cfg: Config, s: State, c: nat, call: Call)
    requires WellFormed(cfg) && Sized(cfg, s) && c < |s.calls| && LaneOk(cfg, s, cfg.client[c])
    requires Holds(s.calls[c].phase) && s.lanes[cfg.client[c]].active > 0
    ensures var s', left, waiting := Leave(cfg, s, c, call), s.calls[c := call.(released := call.released + 1)], s.lanes[cfg.client[c]].waiting;
      && (waiting == [] ==> s'.calls == left)
      && (waiting != [] ==>
            && waiting[0] < |s.calls| && waiting[0] != c && s.calls[waiting[0]].phase.Queued?
            && s'.calls == left[waiting[0] := s.calls[waiting[0]].(phase := Slotted, acquired := s.calls[waiting[0]].acquired + 1)])
  {
    var waiting := s.lanes[cfg.client[c]].waiting;
    assert waiting != [] ==> waiting[0] in waiting;
  }

  lemma LeaveKeepsCalls(cfg: Config, s: State, c: nat, call: Call)
    requires WellFormed(cfg) && Sized(cfg, s) && c < |s.calls| && LaneOk(cfg, s, cfg.client[c]) && CallsOk(cfg, s)
    requires Holds(s.calls[c].phase) && s.lanes[cfg.client[c]].active > 0
    requires CallOk(cfg.limit.Some?, OptionsOf(cfg, c), call.(released := call.released + 1))
    ensures CallsOk(cfg, Leave(cfg, s, c, call))
  {
    var waiting := s.lanes[cfg.client[c]].waiting;
    var left := Become(s, c, call.(released := call.released + 1));
    LeaveChanges(cfg, s, c, call);
    UpdateKeepsCalls(cfg, s, c, left.calls[c]);
    if waiting != [] {
      var n := waiting[0];
      HandedOver(cfg.limit.Some?, OptionsOf(cfg, n), s.calls[n]);
      UpdateKeepsCalls(cfg, left, n, s.calls[n].(phase := Slotted, acquired := s.calls[n].acquired + 1));
    }
  }

  lemma LeaveKeepsInv(cfg: Config, s: State, c: nat, call: Call)
    requires Inv(cfg, s) && c < |s.calls|
    requires Holds(s.calls[c].phase) && !InTurn(s.calls[c].phase) && !Holds(call.phase) && !call.phase.Queued?
    requires CallOk(cfg.limit.Some?, OptionsOf(cfg, c), call.(released := call.released + 1))
    ensures Inv(cfg, Leave(cfg, s, c, call))
  {
    LeaveKeepsLanes(cfg, s, c, call);
    assert LaneOk(cfg, s, cfg.client[c]);
    HolderCounts(cfg, s, c);
    LeaveKeepsCalls(cfg, s, c, call);
    LeaveChanges(cfg, s, c, call);
    TurnsUntouched(cfg, s, Leave(cfg, s, c, call));
  }

  lemma BackoffBounds(o: Options, attempt: nat, jitter: real)
    requires attempt >= 1 && o.baseDelayMs >= 0.0 && o.maxDelayMs >= 0.0 && IsJitter(jitter)
    ensures 0.0 <= Backoff(o, attempt, jitter) <= o.maxDelayMs
  {
  }

  lemma CaughtKeepsInv(cfg: Config, s: State, c: nat, failure: Failure, jitter: real)
    requires Inv(cfg, s) && c < |s.calls| && IsJitter(jitter)
    requires Holds(s.calls[c].phase) && !InTurn(s.calls[c].phase)
    ensures Inv(cfg, Caught(cfg, s, c, failure, jitter))
  {
    var o, call := OptionsOf(cfg, c), s.calls[c];
    assert CallOk(cfg.limit.Some?, o, call);
    if failure.Connection? && !IsLast(o, call.attempt) {
      BackoffBounds(o, call.attempt, jitter);
      BecomeKeepsInv(cfg, s, c, call.(phase := CatchBackoff(Backoff(o, call.attempt, jitter))));
    } else {
      LeaveKeepsInv(cfg, s, c, call.(phase := Done));
    }
  }

  lemma FetchKeepsInv(cfg: Config, s: State, c: nat)
    requires Inv(cfg, s) && c < |s.calls|
    requires s.calls[c].phase.Cleared? || (s.calls[c].phase.Slotted? && cfg.limit.None?)
    ensures Inv(cfg, Fetch(s, c))
  {
    assert CallOk(cfg.limit.Some?, OptionsOf(cfg, c), s.calls[c]);
    BecomeKeepsInv(cfg, s, c, s.calls[c].(phase := Fetching, fetches := s.calls[c].fetches + 1));
  }

  lemma JoinKeepsInv(cfg: Config, s: State, c: nat)
    requires Inv(cfg, s) && c < |s.calls| && s.calls[c].phase.Slotted? && cfg.limit.Some?
    ensures Inv(cfg, Joined(s, c))
  {
    assert CallOk(cfg.limit.Some?, OptionsOf(cfg, c), s.calls[c]);
    var call := s.calls[c].(phase := Turn);
    var s' := Joined(s, c);
    BecomeKeepsLanes(cfg, s, c, call);
    LanesFrame(cfg, Become(s, c, call), s');
    assert c !in s.queue;
  }

  lemma LanesFrame(cfg: Config, s: State, s': State)
    requires WellFormed(cfg) && Sized(cfg, s) && LanesOk(cfg, s) && s'.calls == s.calls && s'.lanes == s.lanes
    ensures Sized(cfg, s') && LanesOk(cfg, s')
  {
    forall k | 0 <= k < |cfg.clients| ensures LaneOk(cfg, s', k) {
      assert LaneOk(cfg, s, k);
    }
  }

  lemma PoppedKeepsQueue(cfg: Config, s: State, c: nat, call: Call, granted: bool)
    requires QueueOk(cfg, s) && s.queue != [] && s.queue[0] == c && c < |s.calls| && !InTurn(call.phase)
    ensures QueueOk(cfg, Popped(s, c, call, granted))
    ensures forall x :: x in Popped(s, c, call, granted).queue ==> x in s.queue && x != c && s.calls[x].phase.Turn?
  {
    assert s.queue == [c] + s.queue[1..];
    assert forall x :: x in s.queue[1..] ==> x in s.queue && x != c;
  }

  /** The head leaves the window's queue, the window having moved on to `window`. */
  lemma PoppedKeepsInv(cfg: Config, s: State, c: nat, call: Call, granted: bool, window: W.Window)
    requires Inv(cfg, s) && s.queue != [] && s.queue[0] == c
    requires Holds(call.phase) && !InTurn(call.phase) && c < |s.calls|
    requires CallOk(cfg.limit.Some?, OptionsOf(cfg, c), call)
    requires cfg.limit.Some? ==> W.Sound(window, cfg.limit.value, cfg.windowMs, s.clock)
    ensures Inv(cfg, Popped(s, c, call, granted).(window := window))
  {
    assert c in s.queue;
    var s' := Popped(s, c, call, granted).(window := window);
    BecomeKeepsLanes(cfg, s, c, call);
    LanesFrame(cfg, Become(s, c, call), s');
    PoppedKeepsQueue(cfg, s, c, call, granted);
  }

  lemma RefusedKeepsInv(cfg: Config, s: State, c: nat)
    requires Inv(cfg, s) && s.queue != [] && s.queue[0] == c && c < |s.calls| && cfg.limit.Some?
    requires !W.Grants(s.window, cfg.limit.value, cfg.windowMs, s.clock)
    ensures Inv(cfg, Polled(cfg, s, c))
  {
    var limit := cfg.limit.value;
    var s' := Polled(cfg, s, c);
    assert c in s.queue;
    W.PolledKeepsSound(s.window, limit, cfg.windowMs, s.clock);
    BecomeKeepsLanes(cfg, s, c, s'.calls[c]);
    LanesFrame(cfg, Become(s, c, s'.calls[c]), s');
  }

  lemma PollKeepsInv(cfg: Config, s: State, c: nat)
    requires Inv(cfg, s) && Enabled(cfg, s, Poll(c))
    ensures Inv(cfg, Polled(cfg, s, c))
  {
    var limit := cfg.limit.value;
    if W.Grants(s.window, limit, cfg.windowMs, s.clock) {
      assert CallOk(true, OptionsOf(cfg, c), s.calls[c]);
      W.PolledKeepsSound(s.window, limit, cfg.windowMs, s.clock);
      PoppedKeepsInv(cfg, s, c, s.calls[c].(phase := Cleared, grants := s.calls[c].grants + 1), true,
                     W.Polled(s.window, limit, cfg.windowMs, s.clock));
    } else {
      RefusedKeepsInv(cfg, s, c);
    }
  }

  lemma TickKeepsInv(cfg: Config, s: State, elapsed: real)
    requires Inv(cfg, s) && elapsed >= 0.0
    ensures Inv(cfg, s.(clock := s.clock + elapsed))
  {
    var s' := s.(clock := s.clock + elapsed);
    LanesFrame(cfg, s, s');
    if cfg.limit.Some? {
      W.Later(s.window, cfg.limit.value, cfg.windowMs, s.clock, s'.clock);
    }
  }

  lemma WakeKeepsInv(cfg: Config, s: State, c: nat, aborted: bool)
    requires Inv(cfg, s) && Enabled(cfg, s, Wake(c, aborted))
    ensures Inv(cfg, NextState(cfg, s, Wake(c, aborted)))
  {
    var call := s.calls[c];
    assert CallOk(cfg.limit.Some?, OptionsOf(cfg, c), call);
    var call' := if aborted then call.(phase := Done) else Retried(call);
    if call.phase.CatchBackoff? {
      LeaveKeepsInv(cfg, s, c, call');
    } else {
      BecomeKeepsInv(cfg, s, c, call');
    }
  }

  lemma DecideKeepsInv(cfg: Config, s: State, e: Event)
    requires Inv(cfg, s) && Enabled(cfg, s, e) && (e.Decide? || e.ReadDone?)
    ensures Inv(cfg, NextState(cfg, s, e))
  {
    var o, call := OptionsOf(cfg, e.c), s.calls[e.c];
    assert CallOk(cfg.limit.Some?, o, call);
    BackoffBounds(o, call.attempt, e.jitter);
    BecomeKeepsInv(cfg, s, e.c, NextState(cfg, s, e).calls[e.c]);
  }

  lemma NextKeepsInv(cfg: Config, s: State, e: Event)
    requires Inv(cfg, s) && Enabled(cfg, s, e)
    ensures Inv(cfg, NextState(cfg, s, e))
  {
    if !e.Tick? {
      assert CallOk(cfg.limit.Some?, OptionsOf(cfg, e.c), s.calls[e.c]);
    }
    match e {
      case Tick(elapsed) => TickKeepsInv(cfg, s, elapsed);
      case Begin(c, aborted) =>
        if aborted { BecomeKeepsInv(cfg, s, c, s.calls[c].(phase := Done)); } else { EnterKeepsInv(cfg, s, c); }
      case Poll(c) => PollKeepsInv(cfg, s, c);
      case Decide(_, _, _) => DecideKeepsInv(cfg, s, e);
      case ReadDone(_, _, _) => DecideKeepsInv(cfg, s, e);
      case Wake(c, aborted) => WakeKeepsInv(cfg, s, c, aborted);
      case _ => HolderKeepsInv(cfg, s, e);
    }
  }

  /** The steps of a call that has its slot, up to the answer. */
  lemma HolderKeepsInv(cfg: Config, s: State, e: Event)
    requires Inv(cfg, s) && Enabled(cfg, s, e) && (e.Resume? || e.TurnFails? || e.Launch? || e.Answer? || e.Fail?)
    ensures Inv(cfg, NextState(cfg, s, e))
  {
    assert CallOk(cfg.limit.Some?, OptionsOf(cfg, e.c), s.calls[e.c]);
    match e {
      case Resume(c, abort, jitter) =>
        if abort.Some? {
          CaughtKeepsInv(cfg, s, c, abort.value, jitter);
        } else if cfg.limit.None? {
          FetchKeepsInv(cfg, s, c);
        } else {
          JoinKeepsInv(cfg, s, c);
        }
      case TurnFails(c, failure, jitter) =>
        PoppedKeepsInv(cfg, s, c, s.calls[c].(phase := Slotted), false, s.window);
        CaughtKeepsInv(cfg, Popped(s, c, s.calls[c].(phase := Slotted), false), c, failure, jitter);
      case Launch(c, abort, jitter) =>
        if abort.Some? { CaughtKeepsInv(cfg, s, c, abort.value, jitter); } else { FetchKeepsInv(cfg, s, c); }
      case Answer(c, status) => LeaveKeepsInv(cfg, s, c, s.calls[c].(phase := Answered(status)));
      case Fail(c, failure, jitter) => CaughtKeepsInv(cfg, s, c, failure, jitter);
    }
  }
}
