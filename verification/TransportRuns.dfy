/** What holds in every run of the transport. */
module TransportRuns {
  import opened Wrappers
  import opened Transport

  // ---------------------------------------------------------------------------
  // Every reachable state
  // ---------------------------------------------------------------------------

  /** `events`, taken one after another from `s`, end in `s'`. */
  ghost predicate Run(cfg: Config, s: State, events: seq<Event>, s': State)
    requires WellFormed(cfg)
    decreases |events|
  {
    if events == [] then s == s'
    else Enabled(cfg, s, events[0]) && Run(cfg, NextState(cfg, s, events[0]), events[1..], s')
  }

  lemma {:induction false} NobodyHolds(cfg: Config, k: nat, n: nat)
    requires n <= |cfg.client|
    ensures Held(cfg, Init(cfg).calls, k, n) == 0
  {
    if n > 0 { NobodyHolds(cfg, k, n - 1); }
  }

  lemma InitInv(cfg: Config)
    requires WellFormed(cfg)
    ensures Inv(cfg, Init(cfg))
  {
    forall k | 0 <= k < |cfg.clients| ensures LaneOk(cfg, Init(cfg), k) {
      NobodyHolds(cfg, k, |cfg.client|);
    }
  }

  lemma {:induction false} RunKeepsInv(cfg: Config, s: State, events: seq<Event>, s': State)
    requires Inv(cfg, s) && Run(cfg, s, events, s')
    ensures Inv(cfg, s')
    decreases |events|
  {
    if events != [] {
      NextKeepsInv(cfg, s, events[0]);
      RunKeepsInv(cfg, NextState(cfg, s, events[0]), events[1..], s');
    }
  }

  /** Calls of client `k`, among the first `n`, whose request is out. */
  function Fetches(cfg: Config, calls: seq<Call>, k: nat, n: nat): nat
    requires n <= |calls| && n <= |cfg.client|
  {
    if n == 0 then 0
    else Fetches(cfg, calls, k, n - 1) + if cfg.client[n - 1] == k && calls[n - 1].phase.Fetching? then 1 else 0
  }

  lemma {:induction false} FetchesHold(cfg: Config, calls: seq<Call>, k: nat, n: nat)
    requires n <= |calls| && n <= |cfg.client|
    ensures Fetches(cfg, calls, k, n) <= Held(cfg, calls, k, n)
  {
    if n > 0 { FetchesHold(cfg, calls, k, n - 1); }
  }

  /**
   * In every reachable state, for each client: the requests out at once, and
   * the slots held, stay within its concurrency, `active` is exactly the number
   * of slots held, a caller waits only when every slot is taken, and callers
   * are let in in the order they came.
   */
  lemma ConcurrencyBound(cfg: Config, events: seq<Event>, s: State, k: nat)
    requires WellFormed(cfg) && Run(cfg, Init(cfg), events, s) && k < |cfg.clients|
    ensures Sized(cfg, s) && |s.calls| <= |cfg.client|
    ensures Fetches(cfg, s.calls, k, |s.calls|) <= Held(cfg, s.calls, k, |s.calls|) == s.lanes[k].active <= cfg.clients[k].concurrency
    ensures s.lanes[k].waiting != [] ==> s.lanes[k].active == cfg.clients[k].concurrency
    ensures s.lanes[k].arrivals == s.lanes[k].served + s.lanes[k].waiting
  {
    InitInv(cfg);
    RunKeepsInv(cfg, Init(cfg), events, s);
    assert LaneOk(cfg, s, k);
    FetchesHold(cfg, s.calls, k, |s.calls|);
  }

  /**
   * In every reachable state, for each call: at most `attempts` fetches (one
   * when that is 0), each after a window grant of its own if there is a limit;
   * every slot acquired but the one it may hold has been released, so a
   * finished call has released them all; and no delay exceeds `maxDelayMs`.
   */
  lemma CallBounds(cfg: Config, events: seq<Event>, s: State, c: nat)
    requires WellFormed(cfg) && Run(cfg, Init(cfg), events, s) && c < |cfg.client|
    ensures Sized(cfg, s)
    ensures var o, call := OptionsOf(cfg, c), s.calls[c];
      && call.fetches <= Attempts(o) && call.acquired <= Attempts(o)
      && (cfg.limit.Some? ==> call.fetches <= call.grants)
      && call.acquired == call.released + (if Holds(call.phase) then 1 else 0)
      && (call.phase.Done? ==> call.acquired == call.released)
      && (call.phase.CatchBackoff? || call.phase.FreeBackoff? ==> 0.0 <= call.phase.delay <= o.maxDelayMs)
  {
    InitInv(cfg);
    RunKeepsInv(cfg, Init(cfg), events, s);
    assert CallOk(cfg.limit.Some?, OptionsOf(cfg, c), s.calls[c]);
  }

  /** In every reachable state no window of `windowMs`, wherever it starts, holds more than `limit` request starts of all clients together. */
  lemma RateBound(cfg: Config, events: seq<Event>, s: State, from: real)
    requires WellFormed(cfg) && Run(cfg, Init(cfg), events, s) && cfg.limit.Some?
    ensures W.Spaced(s.window.grants, cfg.limit.value, cfg.windowMs)
    ensures |W.Inside(s.window.grants, cfg.windowMs, from)| <= cfg.limit.value
  {
    InitInv(cfg);
    RunKeepsInv(cfg, Init(cfg), events, s);
    W.NoWindowOverfull(s.window.grants, cfg.limit.value, cfg.windowMs, from);
  }

  /** A reading of the clock before the wait that was asked for is over. */
  predicate Early(s: State, e: Event) {
    e.Poll? && e.c < |s.calls| && s.calls[e.c].phase.Refused? && s.clock < s.calls[e.c].phase.wake
  }

  /** A refused caller is granted at its first reading that is not early. */
  lemma RefusedOnce(cfg: Config, s: State, c: nat)
    requires Inv(cfg, s) && Enabled(cfg, s, Poll(c)) && s.calls[c].phase.Refused? && !Early(s, Poll(c))
    ensures W.Grants(s.window, cfg.limit.value, cfg.windowMs, s.clock)
  {
    assert c in s.queue;
    var n := W.PruneDrops(s.window.starts, s.clock - cfg.windowMs);
    assert n > 0;
  }

  // ---------------------------------------------------------------------------
  // First come, first served
  // ---------------------------------------------------------------------------

  function Callers(passed: seq<Passage>): seq<nat> {
    if passed == [] then [] else Callers(passed[..|passed| - 1]) + [passed[|passed| - 1].caller]
  }

  function Granted(passed: seq<Passage>): nat {
    if passed == [] then 0 else Granted(passed[..|passed| - 1]) + if passed[|passed| - 1].granted then 1 else 0
  }

  /** The callers leave the window's queue in the order they joined it, and each that leaves with a start has one of the grants. */
  ghost predicate InTurnOrder(s: State) {
    s.turns.joined == Callers(s.turns.passed) + s.queue && Granted(s.turns.passed) == |s.window.grants|
  }

  /** Nothing that concerns the window's queue has changed. */
  predicate SameTurns(s: State, s': State) {
    s'.queue == s.queue && s'.turns == s.turns && s'.window == s.window
  }

  lemma LeaveSameTurns(cfg: Config, s: State, c: nat, call: Call)
    requires WellFormed(cfg) && Sized(cfg, s) && c < |s.calls|
    ensures SameTurns(s, Leave(cfg, s, c, call))
  {
  }

  lemma CaughtSameTurns(cfg: Config, s: State, c: nat, failure: Failure, jitter: real)
    requires WellFormed(cfg) && Sized(cfg, s) && c < |s.calls| && s.calls[c].attempt >= 1
    ensures SameTurns(s, Caught(cfg, s, c, failure, jitter))
  {
    LeaveSameTurns(cfg, s, c, s.calls[c].(phase := Done));
  }

  lemma PoppedInOrder(s: State, c: nat, call: Call, granted: bool)
    requires InTurnOrder(s) && s.queue != [] && s.queue[0] == c && c < |s.calls|
    ensures var out := Popped(s, c, call, granted);
      && out.turns.joined == Callers(out.turns.passed) + out.queue
      && Granted(out.turns.passed) == |s.window.grants| + if granted then 1 else 0
  {
    var passage := Passage(c, granted);
    assert (s.turns.passed + [passage])[..|s.turns.passed|] == s.turns.passed;
    assert s.queue == [c] + s.queue[1..];
  }

  lemma StepInTurnOrder(cfg: Config, s: State, e: Event)
    requires WellFormed(cfg) && Enabled(cfg, s, e) && InTurnOrder(s)
    ensures InTurnOrder(NextState(cfg, s, e))
  {
    match e {
      case Resume(c, abort, jitter) =>
        if abort.Some? {
          CaughtSameTurns(cfg, s, c, abort.value, jitter);
        } else if cfg.limit.Some? {
          assert Callers(s.turns.passed) + (s.queue + [c]) == Callers(s.turns.passed) + s.queue + [c];
        }
      case Poll(c) =>
        PoppedInOrder(s, c, s.calls[c].(phase := Cleared, grants := s.calls[c].grants + 1), true);
      case TurnFails(c, failure, jitter) =>
        PoppedInOrder(s, c, s.calls[c].(phase := Slotted), false);
        CaughtSameTurns(cfg, Popped(s, c, s.calls[c].(phase := Slotted), false), c, failure, jitter);
      case Launch(c, abort, jitter) =>
        if abort.Some? { CaughtSameTurns(cfg, s, c, abort.value, jitter); }
      case Answer(c, status) => LeaveSameTurns(cfg, s, c, s.calls[c].(phase := Answered(status)));
      case Fail(c, failure, jitter) => CaughtSameTurns(cfg, s, c, failure, jitter);
      case Wake(c, aborted) =>
        var call := s.calls[c];
        LeaveSameTurns(cfg, s, c, if aborted then call.(phase := Done) else Retried(call));
      case _ =>
    }
  }

  /** Joining and leaving are final: both histories only grow at the end. */
  lemma TurnsGrow(cfg: Config, s: State, e: Event)
    requires WellFormed(cfg) && Enabled(cfg, s, e)
    ensures s.turns.joined <= NextState(cfg, s, e).turns.joined && s.turns.passed <= NextState(cfg, s, e).turns.passed
  {
    match e {
      case Resume(c, abort, jitter) =>
        if abort.Some? { CaughtSameTurns(cfg, s, c, abort.value, jitter); }
      case TurnFails(c, failure, jitter) =>
        CaughtSameTurns(cfg, Popped(s, c, s.calls[c].(phase := Slotted), false), c, failure, jitter);
      case Launch(c, abort, jitter) =>
        if abort.Some? { CaughtSameTurns(cfg, s, c, abort.value, jitter); }
      case Answer(c, status) => LeaveSameTurns(cfg, s, c, s.calls[c].(phase := Answered(status)));
      case Fail(c, failure, jitter) => CaughtSameTurns(cfg, s, c, failure, jitter);
      case Wake(c, aborted) =>
        LeaveSameTurns(cfg, s, c, if aborted then s.calls[c].(phase := Done) else Retried(s.calls[c]));
      case _ =>
    }
  }

  lemma {:induction false} RunInTurnOrder(cfg: Config, s: State, events: seq<Event>, s': State)
    requires WellFormed(cfg) && InTurnOrder(s) && Run(cfg, s, events, s')
    ensures InTurnOrder(s')
    decreases |events|
  {
    if events != [] {
      StepInTurnOrder(cfg, s, events[0]);
      RunInTurnOrder(cfg, NextState(cfg, s, events[0]), events[1..], s');
    }
  }

  /**
   * In every run the window serves its callers in the order they joined its
   * queue: those who have left it, granted or failed, are the first of them,
   * and the rest still stand in it. Each grant is that of one who left.
   */
  lemma FirstComeFirstServed(cfg: Config, events: seq<Event>, s: State)
    requires WellFormed(cfg) && Run(cfg, Init(cfg), events, s)
    ensures s.turns.joined == Callers(s.turns.passed) + s.queue
    ensures Granted(s.turns.passed) == |s.window.grants|
  {
    RunInTurnOrder(cfg, Init(cfg), events, s);
  }

  /** Nobody's place is ever taken back: what a lane has served, and who has come to it, only grows at the end. */
  lemma HistoryGrows(cfg: Config, s: State, e: Event, k: nat)
    requires Inv(cfg, s) && Enabled(cfg, s, e) && k < |cfg.clients|
    ensures s.lanes[k].served <= NextState(cfg, s, e).lanes[k].served
    ensures s.lanes[k].arrivals <= NextState(cfg, s, e).lanes[k].arrivals
    ensures cfg.limit.Some? ==> s.window.grants <= NextState(cfg, s, e).window.grants
  {
    var call := if e.Tick? then FIRST else s.calls[e.c];
    match e {
      case TurnFails(c, failure, jitter) => CaughtGrows(cfg, Popped(s, c, call.(phase := Slotted), false), c, failure, jitter, k);
      case Resume(c, abort, jitter) => if abort.Some? { CaughtGrows(cfg, s, c, abort.value, jitter, k); }
      case Launch(c, abort, jitter) => if abort.Some? { CaughtGrows(cfg, s, c, abort.value, jitter, k); }
      case Answer(c, status) => LeaveGrows(cfg, s, c, call.(phase := Answered(status)), k);
      case Fail(c, failure, jitter) => CaughtGrows(cfg, s, c, failure, jitter, k);
      case Wake(c, aborted) => LeaveGrows(cfg, s, c, if aborted then call.(phase := Done) else Retried(call), k);
      case _ =>
    }
  }

  lemma LeaveGrows(cfg: Config, s: State, c: nat, call: Call, k: nat)
    requires WellFormed(cfg) && Sized(cfg, s) && c < |s.calls| && k < |cfg.clients|
    ensures var s' := Leave(cfg, s, c, call);
      s.lanes[k].served <= s'.lanes[k].served && s.lanes[k].arrivals == s'.lanes[k].arrivals && s'.window == s.window
  {
  }

  lemma CaughtGrows(cfg: Config, s: State, c: nat, failure: Failure, jitter: real, k: nat)
    requires WellFormed(cfg) && Sized(cfg, s) && c < |s.calls| && k < |cfg.clients| && s.calls[c].attempt >= 1
    ensures var s' := Caught(cfg, s, c, failure, jitter);
      s.lanes[k].served <= s'.lanes[k].served && s.lanes[k].arrivals == s'.lanes[k].arrivals && s'.window == s.window
  {
    LeaveGrows(cfg, s, c, s.calls[c].(phase := Done), k);
  }

  // ---------------------------------------------------------------------------
  // No deadlock, and no endless run
  // ---------------------------------------------------------------------------

  /** A call that waits for nobody else can step, after its timer if it has one. */
  lemma CanStep(cfg: Config, s: State, c: nat) returns (elapsed: real, e: Event)
    requires Inv(cfg, s) && c < |s.calls| && !s.calls[c].phase.Done? && !s.calls[c].phase.Queued?
    requires InTurn(s.calls[c].phase) ==> s.queue[0] == c
    ensures elapsed >= 0.0 && !e.Tick? && Enabled(cfg, s.(clock := s.clock + elapsed), e) && !Early(s.(clock := s.clock + elapsed), e)
  {
    var p := s.calls[c].phase;
    assert CallOk(cfg.limit.Some?, OptionsOf(cfg, c), s.calls[c]);
    elapsed := if p.Refused? && p.wake > s.clock then p.wake - s.clock else 0.0;
    if InTurn(p) {
      assert c in s.queue;
    }
    match p {
      case Start => e := Begin(c, false);
      case Slotted => e := Resume(c, None, 0.0);
      case Turn => e := Poll(c);
      case Refused(_) => e := Poll(c);
      case Cleared => e := Launch(c, None, 0.0);
      case Fetching => e := Answer(c, 200);
      case CatchBackoff(_) => e := Wake(c, false);
      case Answered(_) => e := Decide(c, None, 0.0);
      case Reading => e := ReadDone(c, Value, 0.0);
      case FreeBackoff(_) => e := Wake(c, false);
    }
  }

  lemma HolderCanStep(cfg: Config, s: State, c: nat) returns (elapsed: real, e: Event)
    requires Inv(cfg, s) && c < |s.calls| && Holds(s.calls[c].phase)
    ensures elapsed >= 0.0 && !e.Tick? && Enabled(cfg, s.(clock := s.clock + elapsed), e) && !Early(s.(clock := s.clock + elapsed), e)
  {
    if InTurn(s.calls[c].phase) {
      assert c in s.queue && s.queue[0] in s.queue;
      elapsed, e := CanStep(cfg, s, s.queue[0]);
    } else {
      elapsed, e := CanStep(cfg, s, c);
    }
  }

  /** While a call is unfinished, some call can step once enough time has passed: the semaphores and the window never deadlock. */
  lemma NoDeadlock(cfg: Config, s: State, c: nat) returns (elapsed: real, e: Event)
    requires Inv(cfg, s) && c < |s.calls| && !s.calls[c].phase.Done?
    requires forall k :: 0 <= k < |cfg.clients| ==> cfg.clients[k].concurrency >= 1
    ensures elapsed >= 0.0 && !e.Tick? && Enabled(cfg, s.(clock := s.clock + elapsed), e) && !Early(s.(clock := s.clock + elapsed), e)
  {
    if s.calls[c].phase.Queued? {
      var k := cfg.client[c];
      assert LaneOk(cfg, s, k);
      var holder := SomeHolder(cfg, s.calls, k, |s.calls|);
      elapsed, e := HolderCanStep(cfg, s, holder);
    } else if InTurn(s.calls[c].phase) {
      elapsed, e := HolderCanStep(cfg, s, c);
    } else {
      elapsed, e := CanStep(cfg, s, c);
    }
  }

  /** How far a phase is from the end of its attempt. */
  function Rank(p: Phase): nat {
    match p
    case Start => 11
    case Queued => 10
    case Slotted => 9
    case Turn => 8
    case Refused(_) => 7
    case Cleared => 6
    case Fetching => 5
    case CatchBackoff(_) => 4
    case Answered(_) => 4
    case Reading => 3
    case FreeBackoff(_) => 2
    case Done => 0
  }

  /** Steps a call can still take. */
  function Work(o: Options, call: Call): nat {
    if call.phase.Done? || call.attempt > Attempts(o) then 0 else (Attempts(o) - call.attempt) * 12 + Rank(call.phase)
  }

  function TotalWork(cfg: Config, calls: seq<Call>, n: nat): nat
    requires WellFormed(cfg) && n <= |calls| && n <= |cfg.client|
  {
    if n == 0 then 0 else TotalWork(cfg, calls, n - 1) + Work(OptionsOf(cfg, n - 1), calls[n - 1])
  }

  lemma {:induction false} WorkUpdate(cfg: Config, calls: seq<Call>, n: nat, c: nat, call: Call)
    requires WellFormed(cfg) && n <= |calls| == |cfg.client| && c < |calls|
    ensures TotalWork(cfg, calls[c := call], n) ==
            TotalWork(cfg, calls, n) + if c < n then Work(OptionsOf(cfg, c), call) - Work(OptionsOf(cfg, c), calls[c]) else 0
  {
    if n > 0 { WorkUpdate(cfg, calls, n - 1, c, call); }
  }

  lemma BecomeWorks(cfg: Config, s: State, c: nat, call: Call)
    requires WellFormed(cfg) && Sized(cfg, s) && c < |s.calls| && Work(OptionsOf(cfg, c), call) < Work(OptionsOf(cfg, c), s.calls[c])
    ensures TotalWork(cfg, Become(s, c, call).calls, |s.calls|) < TotalWork(cfg, s.calls, |s.calls|)
  {
    WorkUpdate(cfg, s.calls, |s.calls|, c, call);
  }

  lemma LeaveWorks(cfg: Config, s: State, c: nat, call: Call)
    requires Inv(cfg, s) && c < |s.calls| && Holds(s.calls[c].phase)
    requires Work(OptionsOf(cfg, c), call) < Work(OptionsOf(cfg, c), s.calls[c])
    ensures TotalWork(cfg, Leave(cfg, s, c, call).calls, |s.calls|) < TotalWork(cfg, s.calls, |s.calls|)
  {
    assert LaneOk(cfg, s, cfg.client[c]);
    HolderCounts(cfg, s, c);
    LeaveChanges(cfg, s, c, call);
    var left := s.calls[c := call.(released := call.released + 1)];
    WorkUpdate(cfg, s.calls, |s.calls|, c, left[c]);
    var waiting := s.lanes[cfg.client[c]].waiting;
    if waiting != [] {
      WorkUpdate(cfg, left, |s.calls|, waiting[0], Leave(cfg, s, c, call).calls[waiting[0]]);
    }
  }

  lemma CaughtWorks(cfg: Config, s: State, c: nat, failure: Failure, jitter: real)
    requires Inv(cfg, s) && c < |s.calls| && IsJitter(jitter) && Holds(s.calls[c].phase) && !s.calls[c].phase.CatchBackoff?
    ensures TotalWork(cfg, Caught(cfg, s, c, failure, jitter).calls, |s.calls|) < TotalWork(cfg, s.calls, |s.calls|)
  {
    var o, call := OptionsOf(cfg, c), s.calls[c];
    assert CallOk(cfg.limit.Some?, o, call);
    if failure.Connection? && !IsLast(o, call.attempt) {
      BecomeWorks(cfg, s, c, call.(phase := CatchBackoff(Backoff(o, call.attempt, jitter))));
    } else {
      LeaveWorks(cfg, s, c, call.(phase := Done));
    }
  }

  lemma PollWorks(cfg: Config, s: State, c: nat)
    requires Inv(cfg, s) && Enabled(cfg, s, Poll(c)) && !Early(s, Poll(c))
    ensures TotalWork(cfg, Polled(cfg, s, c).calls, |s.calls|) < TotalWork(cfg, s.calls, |s.calls|)
  {
    assert CallOk(true, OptionsOf(cfg, c), s.calls[c]);
    if s.calls[c].phase.Refused? {
      RefusedOnce(cfg, s, c);
    }
    BecomeWorks(cfg, s, c, Polled(cfg, s, c).calls[c]);
    assert Polled(cfg, s, c).calls == Become(s, c, Polled(cfg, s, c).calls[c]).calls;
  }

  /** A call that finishes on release takes its whole remaining work with it. */
  lemma LeaveFinishes(cfg: Config, s: State, c: nat)
    requires Inv(cfg, s) && c < |s.calls| && Holds(s.calls[c].phase)
    ensures TotalWork(cfg, Leave(cfg, s, c, s.calls[c].(phase := Done)).calls, |s.calls|) + Work(OptionsOf(cfg, c), s.calls[c])
            <= TotalWork(cfg, s.calls, |s.calls|)
  {
    var call := s.calls[c].(phase := Done);
    assert LaneOk(cfg, s, cfg.client[c]);
    HolderCounts(cfg, s, c);
    LeaveChanges(cfg, s, c, call);
    var left := s.calls[c := call.(released := call.released + 1)];
    WorkUpdate(cfg, s.calls, |s.calls|, c, left[c]);
    var waiting := s.lanes[cfg.client[c]].waiting;
    if waiting != [] {
      WorkUpdate(cfg, left, |s.calls|, waiting[0], Leave(cfg, s, c, call).calls[waiting[0]]);
    }
  }

  lemma TurnFailsWorks(cfg: Config, s: State, c: nat, failure: Failure, jitter: real)
    requires Inv(cfg, s) && Enabled(cfg, s, TurnFails(c, failure, jitter))
    ensures TotalWork(cfg, NextState(cfg, s, TurnFails(c, failure, jitter)).calls, |s.calls|) < TotalWork(cfg, s.calls, |s.calls|)
  {
    var o, call := OptionsOf(cfg, c), s.calls[c];
    assert CallOk(cfg.limit.Some?, o, call);
    var out := Popped(s, c, call.(phase := Slotted), false);
    PopWorks(cfg, s, c);
    CaughtLeaves(cfg, out, c, failure, jitter);
    assert Work(o, call.(phase := CatchBackoff(0.0))) < Work(o, call);
    assert NextState(cfg, s, TurnFails(c, failure, jitter)) == Caught(cfg, out, c, failure, jitter);
  }

  /** Stepping out of the window's queue changes the work of the one call only. */
  lemma PopWorks(cfg: Config, s: State, c: nat)
    requires Inv(cfg, s) && s.queue != [] && s.queue[0] == c && c < |s.calls| && InTurn(s.calls[c].phase)
    ensures var out := Popped(s, c, s.calls[c].(phase := Slotted), false);
      && Inv(cfg, out)
      && TotalWork(cfg, out.calls, |s.calls|) == TotalWork(cfg, s.calls, |s.calls|) + Work(OptionsOf(cfg, c), out.calls[c]) - Work(OptionsOf(cfg, c), s.calls[c])
  {
    var call := s.calls[c].(phase := Slotted);
    assert CallOk(cfg.limit.Some?, OptionsOf(cfg, c), s.calls[c]);
    WorkUpdate(cfg, s.calls, |s.calls|, c, call);
    PoppedKeepsInv(cfg, s, c, call, false, s.window);
  }

  /** What a failed attempt leaves of its call's work: its backoff and what follows, or nothing. */
  lemma CaughtLeaves(cfg: Config, s: State, c: nat, failure: Failure, jitter: real)
    requires Inv(cfg, s) && c < |s.calls| && Holds(s.calls[c].phase) && s.calls[c].attempt >= 1
    ensures var o, call := OptionsOf(cfg, c), s.calls[c];
      TotalWork(cfg, Caught(cfg, s, c, failure, jitter).calls, |s.calls|) + Work(o, call)
      <= TotalWork(cfg, s.calls, |s.calls|) + Work(o, call.(phase := CatchBackoff(0.0)))
  {
    var o, call := OptionsOf(cfg, c), s.calls[c];
    if failure.Connection? && !IsLast(o, call.attempt) {
      WorkUpdate(cfg, s.calls, |s.calls|, c, call.(phase := CatchBackoff(Backoff(o, call.attempt, jitter))));
    } else {
      LeaveFinishes(cfg, s, c);
    }
  }

  /** The steps taken without a slot, or back from a backoff. */
  lemma SlotlessWorks(cfg: Config, s: State, e: Event)
    requires Inv(cfg, s) && Enabled(cfg, s, e) && (e.Begin? || e.Decide? || e.ReadDone? || e.Wake?)
    ensures TotalWork(cfg, NextState(cfg, s, e).calls, |s.calls|) < TotalWork(cfg, s.calls, |s.calls|)
  {
    var c := e.c;
    var call, s' := s.calls[c], NextState(cfg, s, e);
    assert CallOk(cfg.limit.Some?, OptionsOf(cfg, c), call);
    if e.Wake? && call.phase.CatchBackoff? {
      LeaveWorks(cfg, s, c, if e.aborted then call.(phase := Done) else Retried(call));
    } else {
      BecomeWorks(cfg, s, c, s'.calls[c]);
    }
  }

  /** Every step of a call uses up work, but for a reading before its wait is over. */
  lemma StepWorks(cfg: Config, s: State, e: Event)
    requires Inv(cfg, s) && Enabled(cfg, s, e) && !e.Tick? && !Early(s, e)
    ensures TotalWork(cfg, NextState(cfg, s, e).calls, |s.calls|) < TotalWork(cfg, s.calls, |s.calls|)
  {
    var c := e.c;
    var call, s' := s.calls[c], NextState(cfg, s, e);
    assert CallOk(cfg.limit.Some?, OptionsOf(cfg, c), call);
    match e {
      case Resume(_, abort, jitter) =>
        if abort.Some? { CaughtWorks(cfg, s, c, abort.value, jitter); } else { BecomeWorks(cfg, s, c, s'.calls[c]); }
      case Poll(_) => PollWorks(cfg, s, c);
      case TurnFails(_, failure, jitter) => TurnFailsWorks(cfg, s, c, failure, jitter);
      case Launch(_, abort, jitter) =>
        if abort.Some? { CaughtWorks(cfg, s, c, abort.value, jitter); } else { BecomeWorks(cfg, s, c, s'.calls[c]); }
      case Answer(_, status) => LeaveWorks(cfg, s, c, call.(phase := Answered(status)));
      case Fail(_, failure, jitter) => CaughtWorks(cfg, s, c, failure, jitter);
      case _ => SlotlessWorks(cfg, s, e);
    }
  }

  /** An early reading costs no work, and may save some. */
  lemma EarlyCostsNothing(cfg: Config, s: State, e: Event)
    requires Inv(cfg, s) && Enabled(cfg, s, e) && Early(s, e)
    ensures TotalWork(cfg, NextState(cfg, s, e).calls, |s.calls|) <= TotalWork(cfg, s.calls, |s.calls|)
  {
    assert CallOk(true, OptionsOf(cfg, e.c), s.calls[e.c]);
    WorkUpdate(cfg, s.calls, |s.calls|, e.c, Polled(cfg, s, e.c).calls[e.c]);
    assert Polled(cfg, s, e.c).calls == s.calls[e.c := Polled(cfg, s, e.c).calls[e.c]];
  }

  /** The steps of calls in a run from `s`, and how many of them are early readings. */
  function Steps(events: seq<Event>): nat {
    if events == [] then 0 else (if events[0].Tick? then 0 else 1) + Steps(events[1..])
  }

  ghost function EarlySteps(cfg: Config, s: State, events: seq<Event>, s': State): nat
    requires WellFormed(cfg) && Run(cfg, s, events, s')
    decreases |events|
  {
    if events == [] then 0
    else (if Early(s, events[0]) then 1 else 0) + EarlySteps(cfg, NextState(cfg, s, events[0]), events[1..], s')
  }

  /** No run goes on for ever: but for early readings, the calls of a run from `s` take at most `TotalWork` steps between them. */
  lemma {:induction false} RunsAreBounded(cfg: Config, s: State, events: seq<Event>, s': State)
    requires Inv(cfg, s) && Run(cfg, s, events, s')
    ensures Sized(cfg, s') && |s'.calls| == |s.calls|
    ensures Steps(events) + TotalWork(cfg, s'.calls, |s.calls|) <= TotalWork(cfg, s.calls, |s.calls|) + EarlySteps(cfg, s, events, s')
    decreases |events|
  {
    if events != [] {
      var next := NextState(cfg, s, events[0]);
      NextKeepsInv(cfg, s, events[0]);
      if Early(s, events[0]) {
        EarlyCostsNothing(cfg, s, events[0]);
      } else if !events[0].Tick? {
        StepWorks(cfg, s, events[0]);
      }
      RunsAreBounded(cfg, next, events[1..], s');
    }
  }

  /** From every reachable state some run finishes every call. */
  lemma {:induction false} EveryCallFinishes(cfg: Config, s: State) returns (events: seq<Event>, s': State)
    requires Inv(cfg, s) && forall k :: 0 <= k < |cfg.clients| ==> cfg.clients[k].concurrency >= 1
    ensures Run(cfg, s, events, s') && Inv(cfg, s') && forall c :: 0 <= c < |s'.calls| ==> s'.calls[c].phase.Done?
    decreases TotalWork(cfg, s.calls, |s.calls|)
  {
    if c :| 0 <= c < |s.calls| && !s.calls[c].phase.Done? {
      var elapsed, e := NoDeadlock(cfg, s, c);
      var later := s.(clock := s.clock + elapsed);
      NextKeepsInv(cfg, s, Tick(elapsed));
      StepWorks(cfg, later, e);
      NextKeepsInv(cfg, later, e);
      var rest;
      rest, s' := EveryCallFinishes(cfg, NextState(cfg, later, e));
      events := [Tick(elapsed), e] + rest;
      TwoSteps(cfg, s, Tick(elapsed), later, e, rest, s');
    } else {
      events, s' := [], s;
    }
  }

  lemma TwoSteps(cfg: Config, s: State, first: Event, next: State, second: Event, rest: seq<Event>, s': State)
    requires WellFormed(cfg) && Enabled(cfg, s, first) && next == NextState(cfg, s, first)
    requires Enabled(cfg, next, second) && Run(cfg, NextState(cfg, next, second), rest, s')
    ensures Run(cfg, s, [first, second] + rest, s')
  {
    var events := [first, second] + rest;
    assert events[1..][0] == second && events[1..][1..] == rest;
    assert Run(cfg, next, events[1..], s');
  }
}
