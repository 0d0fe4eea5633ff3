/** The retry loop itself: one call that finds a free slot. */
module RetryLoop {
  import opened Wrappers
  import opened Semaphore
  import opened Transport
  import opened TransportRuns

  datatype Reply = Fails(failure: Failure) | Replies(status: nat, asked: Option<real>, result: ReadResult)

  /**
   * All that is decided outside the loop during one pass of it. `elapsed` is
   * the time before each reading of the rate window's clock; when the readings
   * end without a grant, the wait for the window has failed with `turnFailure`.
   */
  datatype Try = Try(jitter: real, abortedAtTop: bool, abortedWithSlot: Option<Failure>, elapsed: seq<real>, turnFailure: Failure,
                     abortedAfterTurn: Option<Failure>, reply: Reply, abortedInWait: bool)

  predicate Proper(t: Try) {
    && IsJitter(t.jitter) && (forall i :: 0 <= i < |t.elapsed| ==> t.elapsed[i] >= 0.0)
    && (t.reply.Replies? && t.reply.asked.Some? ==> t.reply.asked.value >= 0.0)
  }

  // ---------------------------------------------------------------------------
  // What a pass does
  // ---------------------------------------------------------------------------

  /** A rate window and its clock. */
  datatype Clocked = Clocked(window: W.Window, clock: real)

  /** A host's limit per window, and the window's length. */
  datatype Rate = Rate(limit: nat, windowMs: real)

  /** The wait for the window: readings until one is granted, or none is left. */
  function TurnOf(r: Rate, k: Clocked, elapsed: seq<real>): (Clocked, bool)
    decreases |elapsed|
  {
    if elapsed == [] then (k, false)
    else
      var t := k.clock + elapsed[0];
      var k' := Clocked(W.Polled(k.window, r.limit, r.windowMs, t), t);
      if W.Grants(k.window, r.limit, r.windowMs, t) then (k', true) else TurnOf(r, k', elapsed[1..])
  }

  /** Whether the pass comes to the window at all. */
  predicate TakesTurn(rate: Option<Rate>, t: Try) {
    rate.Some? && !t.abortedAtTop && t.abortedWithSlot.None?
  }

  /** The window and its clock after the pass. */
  function AfterPass(rate: Option<Rate>, k: Clocked, t: Try): Clocked {
    if TakesTurn(rate, t) then TurnOf(rate.value, k, t.elapsed).0 else k
  }

  /** What stops the pass between its slot and its fetch. */
  function StoppedBy(rate: Option<Rate>, k: Clocked, t: Try): Option<Failure> {
    if t.abortedWithSlot.Some? then t.abortedWithSlot
    else if rate.None? then None
    else if !TurnOf(rate.value, k, t.elapsed).1 then Some(t.turnFailure)
    else t.abortedAfterTurn
  }

  /** A wait before the next attempt, with or without the slot. */
  datatype Wait = Wait(delay: real, held: bool)

  /** The wait a pass ends in, if it may be followed by another. */
  function WaitOf(o: Options, rate: Option<Rate>, k: Clocked, attempt: nat, t: Try): Option<Wait>
    requires attempt >= 1
  {
    var backoff := Backoff(o, attempt, t.jitter);
    var stopped := StoppedBy(rate, k, t);
    if t.abortedAtTop || IsLast(o, attempt) then None
    else if stopped.Some? then FailureWait(stopped.value, backoff)
    else
      match t.reply
      case Fails(failure) => FailureWait(failure, backoff)
      case Replies(status, asked, result) =>
        if status == 429 || status >= 500 then Some(Wait(if asked.None? then backoff else Min(asked.value, o.maxDelayMs), false))
        else if result.Transient? then Some(Wait(backoff, false))
        else None
  }

  /** Only a failed connection is tried again, and its slot is kept while it waits. */
  function FailureWait(failure: Failure, backoff: real): Option<Wait> {
    if failure.Connection? then Some(Wait(backoff, true)) else None
  }

  predicate Again(o: Options, rate: Option<Rate>, k: Clocked, attempt: nat, t: Try)
    requires attempt >= 1
  {
    WaitOf(o, rate, k, attempt, t).Some? && !t.abortedInWait
  }

  // ---------------------------------------------------------------------------
  // The transport around one call
  // ---------------------------------------------------------------------------

  /** Call 0 is the one that runs the loop; the others hold slots of the same client. */
  function Lone(o: Options, rate: Option<Rate>, others: nat): Config {
    Config([o], seq(1 + others, _ => 0), if rate.Some? then Some(rate.value.limit) else None, if rate.Some? then rate.value.windowMs else 0.0)
  }

  /** A call in the middle of its first fetch. */
  const BUSY := Call(Fetching, 1, 1, 1, 1, 0)

  /** All of the state but the call's own, its lane and whether it stands in the window's queue. */
  datatype Around = Around(others: seq<Call>, k: Clocked, turns: Turns)

  function LoneState(call: Call, lane: Lane, queue: seq<nat>, a: Around): State {
    State([call] + a.others, [lane], queue, a.k.window, a.k.clock, a.turns)
  }

  /** A run of the transport from `s` that ends with the call, its lane and its surroundings like this. */
  ghost predicate Stands(cfg: Config, s: State, events: seq<Event>, call: Call, lane: Lane, queue: seq<nat>, a: Around) {
    && WellFormed(cfg) && |cfg.clients| == 1 && |cfg.client| == 1 + |a.others| && cfg.client[0] == 0
    && Run(cfg, s, events, LoneState(call, lane, queue, a))
  }

  lemma {:induction false} RunMore(cfg: Config, s: State, events: seq<Event>, s': State, e: Event)
    requires WellFormed(cfg) && Run(cfg, s, events, s') && Enabled(cfg, s', e)
    ensures Run(cfg, s, events + [e], NextState(cfg, s', e))
    decreases |events|
  {
    if events == [] {
      assert [e][1..] == [];
    } else {
      assert (events + [e])[0] == events[0] && (events + [e])[1..] == events[1..] + [e];
      RunMore(cfg, NextState(cfg, s, events[0]), events[1..], s', e);
    }
  }

  /** One step of the call. */
  lemma {:induction false} Moves(cfg: Config, s: State, events: seq<Event>, call: Call, lane: Lane, queue: seq<nat>, a: Around, e: Event,
                                 call': Call, lane': Lane, queue': seq<nat>, a': Around)
    requires Stands(cfg, s, events, call, lane, queue, a) && Enabled(cfg, LoneState(call, lane, queue, a), e)
    requires NextState(cfg, LoneState(call, lane, queue, a), e) == LoneState(call', lane', queue', a') && |a'.others| == |a.others|
    ensures Stands(cfg, s, events + [e], call', lane', queue', a')
  {
    RunMore(cfg, s, events, LoneState(call, lane, queue, a), e);
  }

  lemma {:induction false} BecomeLone(call: Call, lane: Lane, queue: seq<nat>, a: Around, call': Call)
    ensures Become(LoneState(call, lane, queue, a), 0, call') == LoneState(call', lane, queue, a)
  {
    assert ([call] + a.others)[0 := call'] == [call'] + a.others;
  }

  /** The slot given up: nobody waits, so it is free again. */
  lemma {:induction false} LeaveLone(cfg: Config, call: Call, lane: Lane, a: Around, left: Call)
    requires WellFormed(cfg) && |cfg.clients| == 1 && |cfg.client| == 1 + |a.others| && cfg.client[0] == 0
    requires lane.active > 0 && lane.waiting == []
    ensures Leave(cfg, LoneState(call, lane, [], a), 0, left) == LoneState(left.(released := left.released + 1), Released(lane), [], a)
  {
    BecomeLone(call, lane, [], a, left.(released := left.released + 1));
  }

  // ---------------------------------------------------------------------------
  // Slots
  // ---------------------------------------------------------------------------

  /** A call that holds a slot, in an attempt; the lane is as before but for that slot. */
  ghost predicate HoldsSlot(attempt: nat, before: Lane, call: Call, lane: Lane) {
    && Holds(call.phase) && call.attempt == attempt && call.acquired == call.released + 1
    && lane.active == before.active + 1 && lane.waiting == before.waiting == []
  }

  /** Taking the free slot. */
  method TakeSlot(limiter: Limiter, cfg: Config, attempt: nat, ghost s: State, ghost events: seq<Event>, ghost call: Call, ghost a: Around)
    returns (ghost events': seq<Event>, ghost call': Call)
    requires limiter.Valid() && limiter.active < limiter.max && Stands(cfg, s, events, call, limiter.View(), [], a)
    requires limiter.max == cfg.clients[0].concurrency
    requires attempt >= 1 && call.phase.Start? && call.attempt == attempt && call.acquired == call.released
    modifies limiter
    ensures limiter.Valid() && Stands(cfg, s, events', call', limiter.View(), [], a)
    ensures call' == call.(phase := Slotted, acquired := call.acquired + 1)
    ensures HoldsSlot(attempt, old(limiter.View()), call', limiter.View())
  {
    ghost var lane := limiter.View();
    var granted := limiter.Acquire(0);
    assert granted;
    events', call' := events + [Begin(0, false)], call.(phase := Slotted, acquired := call.acquired + 1);
    BecomeLone(call, lane, [], a, call');
    Moves(cfg, s, events, call, lane, [], a, Begin(0, false), call', limiter.View(), [], a);
  }

  /** Giving the slot up: from where the transport stands at `now`, the step `e` leaves the lane, and the call goes on as `left`. */
  method GiveSlotUp(limiter: Limiter, cfg: Config, ghost s: State, ghost events: seq<Event>, ghost now: State, ghost call: Call, ghost a: Around,
                    ghost e: Event, ghost left: Call)
    returns (ghost events': seq<Event>, ghost call': Call)
    requires limiter.Valid() && limiter.active > 0 && limiter.waiting == []
    requires WellFormed(cfg) && |cfg.clients| == 1 && |cfg.client| == 1 + |a.others| && cfg.client[0] == 0
    requires Run(cfg, s, events, now) && Enabled(cfg, now, e)
    requires NextState(cfg, now, e) == Leave(cfg, LoneState(call, limiter.View(), [], a), 0, left)
    modifies limiter
    ensures limiter.Valid() && Stands(cfg, s, events', call', limiter.View(), [], a)
    ensures events' == events + [e] && call' == left.(released := left.released + 1)
    ensures limiter.active == old(limiter.active) - 1 && limiter.waiting == []
  {
    LeaveLone(cfg, call, limiter.View(), a, left);
    RunMore(cfg, s, events, now, e);
    var next := limiter.Release();
    events', call' := events + [e], left.(released := left.released + 1);
  }

  // ---------------------------------------------------------------------------
  // The rate window
  // ---------------------------------------------------------------------------

  /** The window's queue and history while the call stands at its head. */
  function Queued(a: Around, k: Clocked): Around {
    a.(k := k, turns := a.turns.(joined := a.turns.joined + [0]))
  }

  /** The transport allows one reading of the clock, `elapsed` after the last. */
  lemma ReadingStep(cfg: Config, r: Rate, s: State, events: seq<Event>, call: Call, lane: Lane, a: Around, elapsed: real)
    returns (call': Call, a': Around)
    requires Stands(cfg, s, events, call, lane, [0], a) && cfg.limit == Some(r.limit) && cfg.windowMs == r.windowMs
    requires InTurn(call.phase) && call.attempt >= 1 && elapsed >= 0.0
    ensures var t := a.k.clock + elapsed;
      var granted := W.Grants(a.k.window, r.limit, r.windowMs, t);
      && a'.k == Clocked(W.Polled(a.k.window, r.limit, r.windowMs, t), t) && a'.others == a.others
      && (if granted then call' == call.(phase := Cleared, grants := call.grants + 1)
          else InTurn(call'.phase) && call' == call.(phase := call'.phase))
      && Stands(cfg, s, events + [Tick(elapsed)] + [Poll(0)], call', lane, if granted then [] else [0], a')
  {
    var t := a.k.clock + elapsed;
    var later := a.(k := Clocked(a.k.window, t));
    Moves(cfg, s, events, call, lane, [0], a, Tick(elapsed), call, lane, [0], later);
    var granted := W.Grants(a.k.window, r.limit, r.windowMs, t);
    var window := W.Polled(a.k.window, r.limit, r.windowMs, t);
    if granted {
      call' := call.(phase := Cleared, grants := call.grants + 1);
      a' := later.(k := Clocked(window, t), turns := a.turns.(passed := a.turns.passed + [Passage(0, true)]));
      BecomeLone(call, lane, [0], later, call');
      Moves(cfg, s, events + [Tick(elapsed)], call, lane, [0], later, Poll(0), call', lane, [], a');
    } else {
      call' := call.(phase := Refused(t + W.Asked(a.k.window, r.limit, r.windowMs, t)));
      a' := later.(k := Clocked(window, t));
      BecomeLone(call, lane, [0], later, call');
      Moves(cfg, s, events + [Tick(elapsed)], call, lane, [0], later, Poll(0), call', lane, [0], a');
    }
  }

  /** The window and the transport agree, and the call waits at the head of the queue, or has just left it with a grant. */
  ghost predicate AtWindow(window: W.RateWindow, clock: real, cfg: Config, s: State, events: seq<Event>, first: Call, call: Call, lane: Lane, a: Around, granted: bool)
    reads window
  {
    && window.Valid() && window.now == clock && a.k == Clocked(window.View(), clock)
    && Stands(cfg, s, events, call, lane, if granted then [] else [0], a)
    && (if granted then call == first.(phase := Cleared, grants := first.grants + 1)
        else InTurn(call.phase) && call == first.(phase := call.phase))
  }

  /** The call joins the window's queue. */
  lemma JoinTurn(cfg: Config, t: Try, s: State, events: seq<Event>, call: Call, lane: Lane, a: Around)
    requires Stands(cfg, s, events, call, lane, [], a) && cfg.limit.Some? && call.phase.Slotted? && call.attempt >= 1 && Proper(t)
    ensures Stands(cfg, s, events + [Resume(0, None, t.jitter)], call.(phase := Turn), lane, [0], Queued(a, a.k))
  {
    BecomeLone(call, lane, [], a, call.(phase := Turn));
    Moves(cfg, s, events, call, lane, [], a, Resume(0, None, t.jitter), call.(phase := Turn), lane, [0], Queued(a, a.k));
  }

  /** One reading of the clock, `elapsed` after the last. */
  method ReadClock(window: W.RateWindow, cfg: Config, r: Rate, elapsed: real, clock: real,
                   ghost s: State, ghost events: seq<Event>, ghost first: Call, ghost call: Call, ghost lane: Lane, ghost a: Around)
    returns (granted: bool, clock': real, ghost events': seq<Event>, ghost call': Call, ghost a': Around)
    requires AtWindow(window, clock, cfg, s, events, first, call, lane, a, false) && elapsed >= 0.0 && first.attempt >= 1
    requires window.limit == r.limit && window.windowMs == r.windowMs && cfg.limit == Some(r.limit) && cfg.windowMs == r.windowMs
    modifies window
    ensures AtWindow(window, clock', cfg, s, events', first, call', lane, a', granted) && a'.others == a.others
    ensures granted == W.Grants(a.k.window, r.limit, r.windowMs, a.k.clock + elapsed)
    ensures a'.k == Clocked(W.Polled(a.k.window, r.limit, r.windowMs, a.k.clock + elapsed), a.k.clock + elapsed)
  {
    call', a' := ReadingStep(cfg, r, s, events, call, lane, a, elapsed);
    events' := events + [Tick(elapsed)] + [Poll(0)];
    clock' := clock + elapsed;
    granted := window.Pass(clock');
  }

  /** Where the turn below stands after `i` readings. */
  ghost predicate Turning(window: W.RateWindow, r: Rate, t: Try, clock: real, cfg: Config, s: State, events: seq<Event>, first: Call, call: Call, lane: Lane,
                          before: Around, a: Around, i: nat, granted: bool)
    reads window
  {
    && AtWindow(window, clock, cfg, s, events, first, call, lane, a, granted) && a.others == before.others
    && Turned(r, before.k, t.elapsed, i, a.k, granted)
  }

  /** The next reading. */
  method ReadOn(window: W.RateWindow, cfg: Config, r: Rate, t: Try, clock: real, i: nat,
                ghost s: State, ghost events: seq<Event>, ghost first: Call, ghost call: Call, ghost lane: Lane, ghost before: Around, ghost a: Around)
    returns (granted: bool, clock': real, ghost events': seq<Event>, ghost call': Call, ghost a': Around)
    requires Turning(window, r, t, clock, cfg, s, events, first, call, lane, before, a, i, false) && i < |t.elapsed| && Proper(t) && first.attempt >= 1
    requires window.limit == r.limit && window.windowMs == r.windowMs && cfg.limit == Some(r.limit) && cfg.windowMs == r.windowMs
    modifies window
    ensures Turning(window, r, t, clock', cfg, s, events', first, call', lane, before, a', i + 1, granted)
  {
    TurnMore(r, before.k, t.elapsed, i, a.k);
    granted, clock', events', call', a' := ReadClock(window, cfg, r, t.elapsed[i], clock, s, events, first, call, lane, a);
  }

  /** Waiting for the window, at the head of its queue: it ends with a grant, or with the call still in the queue. */
  method TakeTurn(window: W.RateWindow, cfg: Config, r: Rate, t: Try, clock: real,
                  ghost s: State, ghost events: seq<Event>, ghost call: Call, ghost lane: Lane, ghost a: Around)
    returns (granted: bool, clock': real, ghost events': seq<Event>, ghost call': Call, ghost a': Around)
    requires window.Valid() && window.limit == r.limit && window.windowMs == r.windowMs
    requires a.k == Clocked(window.View(), clock) && window.now == clock && Proper(t)
    requires Stands(cfg, s, events, call, lane, [], a) && cfg.limit == Some(r.limit) && cfg.windowMs == r.windowMs
    requires call.phase.Slotted? && call.attempt >= 1
    modifies window
    ensures AtWindow(window, clock', cfg, s, events', call, call', lane, a', granted) && a'.others == a.others
    ensures (a'.k, granted) == TurnOf(r, a.k, t.elapsed)
  {
    JoinTurn(cfg, t, s, events, call, lane, a);
    granted, clock' := false, clock;
    call', a', events' := call.(phase := Turn), Queued(a, a.k), events + [Resume(0, None, t.jitter)];
    var i := 0;
    assert t.elapsed[0..] == t.elapsed;
    while i < |t.elapsed| && !granted
      invariant i <= |t.elapsed| && Turning(window, r, t, clock', cfg, s, events', call, call', lane, a, a', i, granted)
      decreases |t.elapsed| - i
    {
      granted, clock', events', call', a' := ReadOn(window, cfg, r, t, clock', i, s, events', call, call', lane, a, a');
      i := i + 1;
    }
  }

  /** Where a turn stands after `i` readings without a grant, or with one at the last. */
  predicate Turned(r: Rate, first: Clocked, elapsed: seq<real>, i: nat, k: Clocked, granted: bool) {
    i <= |elapsed| && TurnOf(r, first, elapsed) == if granted then (k, true) else TurnOf(r, k, elapsed[i..])
  }

  /** One reading of a turn. */
  lemma {:induction false} TurnMore(r: Rate, first: Clocked, elapsed: seq<real>, i: nat, k: Clocked)
    requires i < |elapsed| && Turned(r, first, elapsed, i, k, false)
    ensures var t := k.clock + elapsed[i];
      Turned(r, first, elapsed, i + 1, Clocked(W.Polled(k.window, r.limit, r.windowMs, t), t), W.Grants(k.window, r.limit, r.windowMs, t))
  {
    assert elapsed[i..][1..] == elapsed[i + 1..];
  }

  // ---------------------------------------------------------------------------
  // One pass of the loop
  // ---------------------------------------------------------------------------

  /** The end of a pass: the lane as free as it was, and the call done or at its next attempt. */
  ghost predicate PassEnds(o: Options, rate: Option<Rate>, k: Clocked, attempt: nat, t: Try, before: Lane, call: Call, lane: Lane)
    requires attempt >= 1
  {
    && lane.active == before.active && lane.waiting == before.waiting
    && call.acquired == call.released && call.phase == (if Again(o, rate, k, attempt, t) then Start else Done)
    && call.attempt == (if Again(o, rate, k, attempt, t) then attempt + 1 else attempt)
  }

  /** The `catch` and `finally` of a pass whose step `e` failed: a connection is waited out with the slot held. */
  method Catch(limiter: Limiter, cfg: Config, attempt: nat, t: Try, failure: Failure, ghost rate: Option<Rate>, ghost k: Clocked,
               ghost before: Lane, ghost s: State, ghost events: seq<Event>, ghost now: State, ghost call: Call, ghost a: Around, ghost e: Event)
    returns (waited: Option<Wait>, again: bool, ghost events': seq<Event>, ghost call': Call)
    requires limiter.Valid() && Proper(t) && attempt >= 1 && HoldsSlot(attempt, before, call, limiter.View())
    requires WellFormed(cfg) && |cfg.clients| == 1 && |cfg.client| == 1 + |a.others| && cfg.client[0] == 0
    requires Run(cfg, s, events, now) && Enabled(cfg, now, e)
    requires NextState(cfg, now, e) == Caught(cfg, LoneState(call, limiter.View(), [], a), 0, failure, t.jitter)
    requires WaitOf(cfg.clients[0], rate, k, attempt, t)
          == if IsLast(cfg.clients[0], attempt) then None else FailureWait(failure, Backoff(cfg.clients[0], attempt, t.jitter))
    requires !t.abortedAtTop
    modifies limiter
    ensures limiter.Valid() && Stands(cfg, s, events', call', limiter.View(), [], a)
    ensures PassEnds(cfg.clients[0], rate, k, attempt, t, before, call', limiter.View())
    ensures waited == WaitOf(cfg.clients[0], rate, k, attempt, t) && again == Again(cfg.clients[0], rate, k, attempt, t)
  {
    waited, again := None, false;
    if !failure.Connection? || attempt >= cfg.clients[0].attempts {
      events', call' := GiveSlotUp(limiter, cfg, s, events, now, call, a, e, call.(phase := Done));
      return;
    }
    var backoff := Backoff(cfg.clients[0], attempt, t.jitter);
    waited, again := Some(Wait(backoff, true)), !t.abortedInWait;
    ghost var waiting := call.(phase := CatchBackoff(backoff));
    BecomeLone(call, limiter.View(), [], a, waiting);
    RunMore(cfg, s, events, now, e);
    events', call' := GiveSlotUp(limiter, cfg, s, events + [e], LoneState(waiting, limiter.View(), [], a), waiting, a, Wake(0, t.abortedInWait),
                                 if t.abortedInWait then waiting.(phase := Done) else Retried(waiting));
  }

  /** After an answer, the slot already given up: wait and go on, or read it. */
  method Answered(limiter: Limiter, cfg: Config, attempt: nat, t: Try, ghost rate: Option<Rate>, ghost k: Clocked,
                  ghost before: Lane, ghost s: State, ghost events: seq<Event>, ghost call: Call, ghost a: Around)
    returns (waited: Option<Wait>, again: bool, ghost events': seq<Event>, ghost call': Call)
    requires limiter.Valid() && Proper(t) && attempt >= 1
    requires !t.abortedAtTop && StoppedBy(rate, k, t).None? && t.reply.Replies?
    requires call.phase == Phase.Answered(t.reply.status) && call.attempt == attempt && call.acquired == call.released
    requires limiter.active == before.active && limiter.waiting == before.waiting
    requires Stands(cfg, s, events, call, limiter.View(), [], a)
    ensures Stands(cfg, s, events', call', limiter.View(), [], a)
    ensures PassEnds(cfg.clients[0], rate, k, attempt, t, before, call', limiter.View())
    ensures waited == WaitOf(cfg.clients[0], rate, k, attempt, t) && again == Again(cfg.clients[0], rate, k, attempt, t)
  {
    var o := cfg.clients[0];
    var last := attempt >= o.attempts;
    var backoff := Backoff(o, attempt, t.jitter);
    ghost var lane := limiter.View();
    waited, again := None, false;
    if !last && (t.reply.status == 429 || t.reply.status >= 500) {
      var delay := if t.reply.asked.None? then backoff else Min(t.reply.asked.value, o.maxDelayMs);
      waited := Some(Wait(delay, false));
      call' := call.(phase := FreeBackoff(delay));
      events' := OwnStep(cfg, s, events, call, lane, a, Decide(0, t.reply.asked, t.jitter), call');
    } else {
      ghost var reading := call.(phase := Reading);
      events' := OwnStep(cfg, s, events, call, lane, a, Decide(0, t.reply.asked, t.jitter), reading);
      if t.reply.result.Transient? && !last {
        waited := Some(Wait(backoff, false));
        call' := call.(phase := FreeBackoff(backoff));
      } else {
        call' := call.(phase := Done);
      }
      events' := OwnStep(cfg, s, events', reading, lane, a, ReadDone(0, t.reply.result, t.jitter), call');
    }
    if waited.Some? {
      again := !t.abortedInWait;
      ghost var woken := if t.abortedInWait then call'.(phase := Done) else Retried(call');
      events' := OwnStep(cfg, s, events', call', lane, a, Wake(0, t.abortedInWait), woken);
      call' := woken;
    }
  }

  /** A step that changes the call and nothing else. */
  lemma OwnStep(cfg: Config, s: State, events: seq<Event>, call: Call, lane: Lane, a: Around, e: Event, call': Call) returns (events': seq<Event>)
    requires Stands(cfg, s, events, call, lane, [], a) && Enabled(cfg, LoneState(call, lane, [], a), e)
    requires NextState(cfg, LoneState(call, lane, [], a), e) == Become(LoneState(call, lane, [], a), 0, call')
    ensures events' == events + [e] && Stands(cfg, s, events', call', lane, [], a)
  {
    BecomeLone(call, lane, [], a, call');
    Moves(cfg, s, events, call, lane, [], a, e, call', lane, [], a);
    events' := events + [e];
  }

  /** The step `e`, from where the transport stands at `now`, fails the attempt of a call that stands otherwise like this. */
  ghost predicate FailsNext(cfg: Config, s: State, events: seq<Event>, now: State, e: Event, call: Call, lane: Lane, a: Around, failure: Failure, jitter: real) {
    && WellFormed(cfg) && |cfg.clients| == 1 && |cfg.client| == 1 + |a.others| && cfg.client[0] == 0
    && Run(cfg, s, events, now) && Enabled(cfg, now, e) && call.attempt >= 1
    && NextState(cfg, now, e) == Caught(cfg, LoneState(call, lane, [], a), 0, failure, jitter)
  }

  /** A step whose abort fails the attempt right where the call stands. */
  lemma AbortFails(cfg: Config, s: State, events: seq<Event>, call: Call, lane: Lane, a: Around, e: Event, failure: Failure, jitter: real)
    requires Stands(cfg, s, events, call, lane, [], a) && call.attempt >= 1 && IsJitter(jitter)
    requires (e == Resume(0, Some(failure), jitter) && call.phase.Slotted?) || (e == Launch(0, Some(failure), jitter) && call.phase.Cleared?)
          || (e == Fail(0, failure, jitter) && call.phase.Fetching?)
    ensures FailsNext(cfg, s, events, LoneState(call, lane, [], a), e, call, lane, a, failure, jitter)
  {
  }

  /** The wait for the window failed: the call steps out of its queue, and its attempt has failed. */
  lemma TurnFailed(cfg: Config, s: State, events: seq<Event>, call: Call, lane: Lane, a: Around, failure: Failure, jitter: real) returns (a': Around)
    requires Stands(cfg, s, events, call, lane, [0], a) && call.attempt >= 1 && IsJitter(jitter) && InTurn(call.phase)
    ensures a'.k == a.k && a'.others == a.others
    ensures FailsNext(cfg, s, events, LoneState(call, lane, [0], a), TurnFails(0, failure, jitter), call.(phase := Slotted), lane, a', failure, jitter)
  {
    a' := a.(turns := a.turns.(passed := a.turns.passed + [Passage(0, false)]));
    BecomeLone(call, lane, [0], a, call.(phase := Slotted));
    assert Popped(LoneState(call, lane, [0], a), 0, call.(phase := Slotted), false) == LoneState(call.(phase := Slotted), lane, [], a');
  }

  /** The rate window that goes with a rate, if there is one, and the clock it was last read at. */
  ghost predicate Goes(window: W.RateWindow?, rate: Option<Rate>, k: Clocked, clock: real)
    reads window
  {
    && (window == null <==> rate.None?)
    && (window != null ==> window.Valid() && Rate(window.limit, window.windowMs) == rate.value && window.now == clock && k == Clocked(window.View(), clock))
  }

  /** The configuration is that of one client with this rate. */
  predicate Configured(cfg: Config, rate: Option<Rate>) {
    && |cfg.clients| == 1
    && (if rate.None? then cfg.limit.None? else cfg.limit == Some(rate.value.limit) && cfg.windowMs == rate.value.windowMs)
  }

  /** From the slot to the fetch: the window, if there is one, and the checks for an abort. */
  method Prepare(window: W.RateWindow?, cfg: Config, ghost rate: Option<Rate>, t: Try, clock: real,
                 ghost s: State, ghost events: seq<Event>, ghost call: Call, ghost lane: Lane, ghost a: Around)
    returns (stopped: Option<Failure>, clock': real, ghost events': seq<Event>, ghost now: State, ghost e: Event, ghost call': Call, ghost a': Around)
    requires Goes(window, rate, a.k, clock) && Configured(cfg, rate) && Proper(t) && !t.abortedAtTop
    requires Stands(cfg, s, events, call, lane, [], a) && call.phase.Slotted? && call.attempt >= 1
    modifies window
    ensures Goes(window, rate, a'.k, clock') && a'.others == a.others && a'.k == AfterPass(rate, a.k, t)
    ensures stopped == StoppedBy(rate, a.k, t)
    ensures stopped.None? ==> Stands(cfg, s, events', call', lane, [], a') && call'.phase.Fetching?
    ensures stopped.Some? ==> FailsNext(cfg, s, events', now, e, call', lane, a', stopped.value, t.jitter)
    ensures Holds(call'.phase) && call'.attempt == call.attempt && call'.acquired == call.acquired && call'.released == call.released
  {
    stopped, clock', events', call', a' := t.abortedWithSlot, clock, events, call, a;
    e, now := Tick(0.0), s;
    if stopped.Some? {
      e, now := Resume(0, stopped, t.jitter), LoneState(call, lane, [], a);
      AbortFails(cfg, s, events, call, lane, a, e, stopped.value, t.jitter);
      return;
    }
    if window == null {
      call' := call.(phase := Fetching, fetches := call.fetches + 1);
      events' := OwnStep(cfg, s, events, call, lane, a, Resume(0, None, t.jitter), call');
      return;
    }
    var granted;
    granted, clock', events', call', a' := TakeTurn(window, cfg, Rate(window.limit, window.windowMs), t, clock, s, events, call, lane, a);
    if !granted {
      stopped := Some(t.turnFailure);
      e, now := TurnFails(0, t.turnFailure, t.jitter), LoneState(call', lane, [0], a');
      a' := TurnFailed(cfg, s, events', call', lane, a', t.turnFailure, t.jitter);
      call' := call'.(phase := Slotted);
      return;
    }
    stopped := t.abortedAfterTurn;
    if stopped.Some? {
      e, now := Launch(0, stopped, t.jitter), LoneState(call', lane, [], a');
      AbortFails(cfg, s, events', call', lane, a', e, stopped.value, t.jitter);
      return;
    }
    ghost var fetching := call'.(phase := Fetching, fetches := call'.fetches + 1);
    events' := OwnStep(cfg, s, events', call', lane, a', Launch(0, None, t.jitter), fetching);
    call' := fetching;
  }

  /**
   * One pass of the loop. Its steps are a run of the transport, the slot is
   * given back whichever way it ends, and it waits exactly when told: with
   * the slot after a failed connection, without it after a retryable answer.
   */
  method Pass(limiter: Limiter, window: W.RateWindow?, cfg: Config, ghost rate: Option<Rate>, attempt: nat, t: Try, clock: real,
              ghost s: State, ghost events: seq<Event>, ghost call: Call, ghost a: Around)
    returns (waited: Option<Wait>, again: bool, clock': real, ghost events': seq<Event>, ghost call': Call, ghost a': Around)
    requires limiter.Valid() && limiter.active < limiter.max && Stands(cfg, s, events, call, limiter.View(), [], a)
    requires Goes(window, rate, a.k, clock) && Configured(cfg, rate) && limiter.max == cfg.clients[0].concurrency
    requires Proper(t) && attempt >= 1 && call.phase.Start? && call.attempt == attempt && call.acquired == call.released
    modifies limiter, window
    ensures limiter.Valid() && Stands(cfg, s, events', call', limiter.View(), [], a')
    ensures Goes(window, rate, a'.k, clock') && a'.others == a.others && a'.k == AfterPass(rate, a.k, t)
    ensures PassEnds(cfg.clients[0], rate, a.k, attempt, t, old(limiter.View()), call', limiter.View())
    ensures waited == WaitOf(cfg.clients[0], rate, a.k, attempt, t) && again == Again(cfg.clients[0], rate, a.k, attempt, t)
  {
    ghost var before := limiter.View();
    clock', a' := clock, a;
    if t.abortedAtTop {
      waited, again, call' := None, false, call.(phase := Done);
      events' := OwnStep(cfg, s, events, call, before, a, Begin(0, true), call');
      return;
    }
    events', call' := TakeSlot(limiter, cfg, attempt, s, events, call, a);
    var stopped;
    ghost var now, e;
    stopped, clock', events', now, e, call', a' := Prepare(window, cfg, rate, t, clock, s, events', call', limiter.View(), a);
    if stopped.Some? {
      waited, again, events', call' := Catch(limiter, cfg, attempt, t, stopped.value, rate, a.k, before, s, events', now, call', a', e);
      return;
    }
    match t.reply
    case Fails(failure) =>
      AbortFails(cfg, s, events', call', limiter.View(), a', Fail(0, failure, t.jitter), failure, t.jitter);
      waited, again, events', call' := Catch(limiter, cfg, attempt, t, failure, rate, a.k, before, s, events',
                                             LoneState(call', limiter.View(), [], a'), call', a', Fail(0, failure, t.jitter));
    case Replies(status, _, _) =>
      events', call' := GiveSlotUp(limiter, cfg, s, events', LoneState(call', limiter.View(), [], a'), call', a', Answer(0, status),
                                   call'.(phase := Phase.Answered(status)));
      waited, again, events', call' := Answered(limiter, cfg, attempt, t, rate, a.k, before, s, events', call', a');
  }

  // ---------------------------------------------------------------------------
  // The loop
  // ---------------------------------------------------------------------------

  /** Where a call starts: the first of its client's calls to look, while each of the others has a slot and a fetch of its own. */
  function Started(lane: Lane, k: Clocked, turns: Turns): State {
    LoneState(FIRST, lane, [], Around(seq(lane.active, _ => BUSY), k, turns))
  }

  lemma {:induction false} BusyHold(cfg: Config, others: nat, n: nat)
    requires n <= others && cfg.client == seq(1 + others, _ => 0)
    ensures Held(cfg, [FIRST] + seq(others, _ => BUSY), 0, 1 + n) == n
  {
    if n > 0 { BusyHold(cfg, others, n - 1); }
  }

  /** That is a state the transport can be in, so all that holds of its runs holds of this one. */
  lemma StartedInv(o: Options, rate: Option<Rate>, lane: Lane, k: Clocked, turns: Turns)
    requires WellFormed(Lone(o, rate, lane.active)) && Orderly(lane, o.concurrency) && lane.waiting == []
    requires rate.Some? ==> W.Sound(k.window, rate.value.limit, rate.value.windowMs, k.clock)
    ensures Inv(Lone(o, rate, lane.active), Started(lane, k, turns))
  {
    var cfg, s := Lone(o, rate, lane.active), Started(lane, k, turns);
    BusyHold(cfg, lane.active, lane.active);
    assert LaneOk(cfg, s, 0);
    forall c | 0 <= c < |s.calls| ensures CallOk(cfg.limit.Some?, OptionsOf(cfg, c), s.calls[c]) && !InTurn(s.calls[c].phase) {
      assert s.calls[c] == FIRST || s.calls[c] == BUSY;
    }
  }

  /** What a pass comes to: its wait, whether another pass follows, and the window and clock after it. */
  datatype Verdict = Verdict(waited: Option<Wait>, again: bool, k: Clocked)

  /** The verdict of each pass, from the window and clock before it and its number. */
  type Plan = (Clocked, nat) -> Verdict

  function PlanOf(o: Options, rate: Option<Rate>, tries: nat -> Try): Plan {
    (k: Clocked, attempt: nat) =>
      if attempt == 0 then Verdict(None, false, k)
      else Verdict(WaitOf(o, rate, k, attempt, tries(attempt)), Again(o, rate, k, attempt, tries(attempt)), AfterPass(rate, k, tries(attempt)))
  }

  /**
   * What the loop has done before pass `attempts`, or after it when it does not
   * go on: every pass before was followed by another, each wait is the one its
   * pass asked for, and `ks` holds the window and clock before each pass.
   */
  ghost predicate Logged(plan: Plan, most: nat, attempts: nat, waits: seq<Wait>, ks: seq<Clocked>, again: bool) {
    && 1 <= attempts <= most && |ks| == (if again then attempts else attempts + 1)
    && (forall i :: 1 <= i < |ks| ==> ks[i] == plan(ks[i - 1], i).k)
    && (forall i :: 0 <= i < attempts - 1 ==> plan(ks[i], i + 1).again)
    && (!again ==> !plan(ks[attempts - 1], attempts).again)
    && |waits| == (if !again && plan(ks[attempts - 1], attempts).waited.Some? then attempts else attempts - 1)
    && (forall i :: 0 <= i < |waits| ==> plan(ks[i], i + 1).waited == Some(waits[i]))
  }

  lemma {:induction false} LogMore(plan: Plan, most: nat, attempts: nat, waits: seq<Wait>, ks: seq<Clocked>, v: Verdict)
    requires Logged(plan, most, attempts, waits, ks, true) && v == plan(ks[attempts - 1], attempts)
    requires v.again ==> v.waited.Some? && attempts < most
    ensures Logged(plan, most, if v.again then attempts + 1 else attempts, if v.waited.Some? then waits + [v.waited.value] else waits, ks + [v.k], v.again)
  {
  }

  /** The transport stands where the loop does, and the lane is as free as at the start. */
  ghost predicate Standing(limiter: Limiter, cfg: Config, s: State, events: seq<Event>, call: Call, a: Around, before: Lane, attempts: nat, again: bool)
    reads limiter
  {
    && limiter.Valid() && limiter.active == before.active && limiter.waiting == before.waiting
    && Stands(cfg, s, events, call, limiter.View(), [], a)
    && call.acquired == call.released && call.attempt == attempts && call.phase == (if again then Start else Done)
  }

  /** One turn of the loop. */
  method NextPass(limiter: Limiter, window: W.RateWindow?, cfg: Config, ghost rate: Option<Rate>, tries: nat -> Try, attempts: nat, waits: seq<Wait>, clock: real,
                  ghost ks: seq<Clocked>, ghost s: State, ghost events: seq<Event>, ghost call: Call, ghost a: Around)
    returns (again: bool, attempts': nat, waits': seq<Wait>, clock': real, ghost events': seq<Event>, ghost call': Call, ghost a': Around)
    requires Configured(cfg, rate) && limiter.max == cfg.clients[0].concurrency && limiter.active < limiter.max
    requires Standing(limiter, cfg, s, events, call, a, limiter.View(), attempts, true) && Goes(window, rate, a.k, clock)
    requires Logged(PlanOf(cfg.clients[0], rate, tries), Attempts(cfg.clients[0]), attempts, waits, ks, true)
    requires a.k == ks[|ks| - 1] && Proper(tries(attempts))
    modifies limiter, window
    ensures Logged(PlanOf(cfg.clients[0], rate, tries), Attempts(cfg.clients[0]), attempts', waits', ks + [a'.k], again)
    ensures Standing(limiter, cfg, s, events', call', a', old(limiter.View()), attempts', again)
    ensures Goes(window, rate, a'.k, clock') && a'.others == a.others && (again ==> attempts' == attempts + 1)
  {
    var waited;
    waited, again, clock', events', call', a' := Pass(limiter, window, cfg, rate, attempts, tries(attempts), clock, s, events, call, a);
    LogMore(PlanOf(cfg.clients[0], rate, tries), Attempts(cfg.clients[0]), attempts, waits, ks, Verdict(waited, again, a'.k));
    waits' := if waited.Some? then waits + [waited.value] else waits;
    attempts' := if again then attempts + 1 else attempts;
  }

  /** The loop, from where the transport stands before the first pass. */
  method Passes(limiter: Limiter, window: W.RateWindow?, cfg: Config, ghost rate: Option<Rate>, ghost plan: Plan, tries: nat -> Try, clock: real,
                ghost s: State, ghost start: Around)
    returns (attempts: nat, waits: seq<Wait>, ghost ks: seq<Clocked>, ghost events: seq<Event>, ghost call: Call, ghost a: Around)
    requires Configured(cfg, rate) && limiter.max == cfg.clients[0].concurrency && limiter.active < limiter.max
    requires Standing(limiter, cfg, s, [], FIRST, start, limiter.View(), 1, true) && Goes(window, rate, start.k, clock)
    requires (forall i :: Proper(tries(i))) && plan == PlanOf(cfg.clients[0], rate, tries)
    modifies limiter, window
    ensures Logged(plan, Attempts(cfg.clients[0]), attempts, waits, ks, false) && ks[0] == start.k
    ensures Standing(limiter, cfg, s, events, call, a, old(limiter.View()), attempts, false) && a.others == start.others
    ensures window != null ==> window.Valid() && window.View() == ks[attempts].window
  {
    events, call, a, waits, attempts, ks := [], FIRST, start, [], 1, [start.k];
    ghost var before := limiter.View();
    var clock', again := clock, true;
    while again
      invariant Logged(plan, Attempts(cfg.clients[0]), attempts, waits, ks, again) && ks[0] == start.k
      invariant Standing(limiter, cfg, s, events, call, a, before, attempts, again) && a.others == start.others
      invariant Goes(window, rate, a.k, clock') && a.k == ks[|ks| - 1]
      decreases if again then 1 + Attempts(cfg.clients[0]) - attempts else 0
    {
      again, attempts, waits, clock', events, call, a := NextPass(limiter, window, cfg, rate, tries, attempts, waits, clock', ks, s, events, call, a);
      ks := ks + [a.k];
    }
  }

  /** A whole call: what the loop did, and a run of the transport, from a state it can be in, that did the same. */
  ghost predicate Finished(o: Options, rate: Option<Rate>, tries: nat -> Try, k: Clocked, turns: Turns, before: Lane, after: Lane,
                           attempts: nat, waits: seq<Wait>, ks: seq<Clocked>, events: seq<Event>, s': State)
  {
    && Logged(PlanOf(o, rate, tries), Attempts(o), attempts, waits, ks, false) && ks[0] == k
    && after.active == before.active && after.waiting == before.waiting
    && var cfg, s := Lone(o, rate, before.active), Started(before, k, turns);
       && Inv(cfg, s) && Run(cfg, s, events, s')
       && s'.lanes == [after] && |s'.calls| > 0 && Ended(s'.calls[0], attempts)
  }

  /** The call has given back every slot it took. */
  predicate Ended(call: Call, attempts: nat) {
    call.phase.Done? && call.attempt == attempts && call.acquired == call.released
  }

  lemma {:induction false} PassesFinish(o: Options, rate: Option<Rate>, tries: nat -> Try, k: Clocked, turns: Turns, before: Lane, limiter: Limiter,
                                        attempts: nat, waits: seq<Wait>, ks: seq<Clocked>, events: seq<Event>, call: Call, a: Around)
    requires Logged(PlanOf(o, rate, tries), Attempts(o), attempts, waits, ks, false) && ks[0] == k
    requires var cfg, s := Lone(o, rate, before.active), Started(before, k, turns);
      Inv(cfg, s) && Standing(limiter, cfg, s, events, call, a, before, attempts, false)
    ensures Finished(o, rate, tries, k, turns, before, limiter.View(), attempts, waits, ks, events, LoneState(call, limiter.View(), [], a))
  {
  }

  /**
   * The whole loop: it makes one more pass for each that is to be retried and
   * stops after the first that is not, never past the last attempt; every
   * wait is as long as the pass asked, and the slot is back at the end. Its
   * steps are a run of the transport, from a state the transport can be in.
   */
  method RetryingRead(limiter: Limiter, window: W.RateWindow?, o: Options, ghost rate: Option<Rate>, tries: nat -> Try, clock: real, ghost k: Clocked, ghost turns: Turns)
    returns (attempts: nat, waits: seq<Wait>, ghost ks: seq<Clocked>, ghost events: seq<Event>, ghost s': State)
    requires limiter.Valid() && limiter.max == o.concurrency && limiter.active < limiter.max
    requires WellFormed(Lone(o, rate, limiter.active)) && Goes(window, rate, k, clock)
    requires forall i :: Proper(tries(i))
    modifies limiter, window
    ensures limiter.Valid() && Finished(o, rate, tries, k, turns, old(limiter.View()), limiter.View(), attempts, waits, ks, events, s')
    ensures window != null ==> window.Valid() && window.View() == ks[attempts].window
    ensures Retries(o, rate, tries, attempts, waits, ks)
  {
    var cfg := Config([o], seq(1 + limiter.active, _ => 0), if window == null then None else Some(window.limit),
                      if window == null then 0.0 else window.windowMs);
    assert cfg == Lone(o, rate, limiter.active);
    ghost var before := limiter.View();
    ghost var a := Around(seq(limiter.active, _ => BUSY), k, turns);
    ghost var call;
    StartedInv(o, rate, before, k, turns);
    attempts, waits, ks, events, call, a := Passes(limiter, window, cfg, rate, PlanOf(o, rate, tries), tries, clock, Started(before, k, turns), a);
    PassesFinish(o, rate, tries, k, turns, before, limiter, attempts, waits, ks, events, call, a);
    s' := LoneState(call, limiter.View(), [], a);
    LoggedRetries(o, rate, tries, attempts, waits, ks);
  }

  // ---------------------------------------------------------------------------
  // Which passes are followed by another, and after how long
  // ---------------------------------------------------------------------------

  /** The pass gets its slot, and its turn if there is a window, and nothing aborts it on the way. */
  predicate Fetches(rate: Option<Rate>, k: Clocked, t: Try) {
    && !t.abortedAtTop && t.abortedWithSlot.None?
    && (rate.Some? ==> TurnOf(rate.value, k, t.elapsed).1 && t.abortedAfterTurn.None?)
  }

  /** It fetches and gets an answer: 429, an error of the server's, or a body to be read again. */
  predicate BadAnswer(rate: Option<Rate>, k: Clocked, t: Try) {
    Fetches(rate, k, t) && t.reply.Replies? && (t.reply.status == 429 || t.reply.status >= 500 || t.reply.result.Transient?)
  }

  /** It loses its connection: in its fetch, or in what comes before that and fails the same way. */
  predicate LosesConnection(rate: Option<Rate>, k: Clocked, t: Try) {
    && !t.abortedAtTop
    && if t.abortedWithSlot.Some? then t.abortedWithSlot.value.Connection?
       else if rate.Some? && !TurnOf(rate.value, k, t.elapsed).1 then t.turnFailure.Connection?
       else if rate.Some? && t.abortedAfterTurn.Some? then t.abortedAfterTurn.value.Connection?
       else t.reply.Fails? && t.reply.failure.Connection?
  }

  /** The longest backoff of an attempt: the base, doubled for each attempt before and never above the cap. */
  function Ceiling(o: Options, attempt: nat): real
    requires attempt >= 1
  {
    Min(o.maxDelayMs, if attempt == 1 then o.baseDelayMs else 2.0 * Ceiling(o, attempt - 1))
  }

  /** The wait after pass `attempt`: what a refusal asked for, up to the cap, or between half and all of the longest backoff. */
  predicate WaitFits(o: Options, rate: Option<Rate>, k: Clocked, t: Try, attempt: nat, wait: Wait)
    requires attempt >= 1
  {
    && (wait.held <==> LosesConnection(rate, k, t))
    && if BadAnswer(rate, k, t) && (t.reply.status == 429 || t.reply.status >= 500) && t.reply.asked.Some?
       then wait.delay == if t.reply.asked.value <= o.maxDelayMs then t.reply.asked.value else o.maxDelayMs
       else o.baseDelayMs >= 0.0 && o.maxDelayMs >= 0.0 ==> Ceiling(o, attempt) / 2.0 <= wait.delay <= Ceiling(o, attempt)
  }

  /**
   * The passes of a whole call. Each but the last had attempts left, got a bad
   * answer or lost its connection, and waited to the end; the last did not do
   * all of that, and waited only if it was to be retried and then aborted.
   */
  ghost predicate Retries(o: Options, rate: Option<Rate>, tries: nat -> Try, attempts: nat, waits: seq<Wait>, ks: seq<Clocked>) {
    && 1 <= attempts && |ks| == attempts + 1
    && (forall i :: 1 <= i < attempts ==> Bad(rate, ks[i - 1], tries(i)) && i < o.attempts && !tries(i).abortedInWait)
    && !(Bad(rate, ks[attempts - 1], tries(attempts)) && attempts < o.attempts && !tries(attempts).abortedInWait)
    && |waits| == (if Bad(rate, ks[attempts - 1], tries(attempts)) && attempts < o.attempts then attempts else attempts - 1)
    && (forall i :: 0 <= i < |waits| ==> WaitFits(o, rate, ks[i], tries(i + 1), i + 1, waits[i]))
  }

  predicate Bad(rate: Option<Rate>, k: Clocked, t: Try) {
    BadAnswer(rate, k, t) || LosesConnection(rate, k, t)
  }

  /** The cap of a doubled value capped before. */
  lemma CapTwice(most: real, x: real)
    requires most >= 0.0
    ensures Min(most, 2.0 * Min(most, x)) == Min(most, 2.0 * x)
  {
  }

  lemma {:induction false} CeilingIsCapped(o: Options, attempt: nat)
    requires attempt >= 1 && o.maxDelayMs >= 0.0
    ensures Ceiling(o, attempt) == Min(o.maxDelayMs, Grown(o.baseDelayMs, attempt - 1))
  {
    if attempt > 1 {
      CeilingIsCapped(o, attempt - 1);
      CapTwice(o.maxDelayMs, Grown(o.baseDelayMs, attempt - 2));
    }
  }

  lemma BackoffFits(o: Options, attempt: nat, jitter: real)
    requires attempt >= 1 && o.baseDelayMs >= 0.0 && o.maxDelayMs >= 0.0 && IsJitter(jitter)
    ensures Ceiling(o, attempt) / 2.0 <= Backoff(o, attempt, jitter) <= Ceiling(o, attempt)
  {
    CeilingIsCapped(o, attempt);
    HalfToAll(o.maxDelayMs, Grown(o.baseDelayMs, attempt - 1), Jittered(Grown(o.baseDelayMs, attempt - 1), jitter));
  }

  lemma HalfToAll(most: real, x: real, y: real)
    requires most >= 0.0 && x >= 0.0 && x / 2.0 <= y <= x
    ensures Min(most, x) / 2.0 <= Min(most, y) <= Min(most, x)
  {
  }

  /** The verdict on one pass says just this. */
  lemma VerdictFits(o: Options, rate: Option<Rate>, k: Clocked, attempt: nat, t: Try)
    requires attempt >= 1 && Proper(t)
    ensures WaitOf(o, rate, k, attempt, t).Some? <==> Bad(rate, k, t) && attempt < o.attempts
    ensures WaitOf(o, rate, k, attempt, t).Some? ==> WaitFits(o, rate, k, t, attempt, WaitOf(o, rate, k, attempt, t).value)
  {
    if o.baseDelayMs >= 0.0 && o.maxDelayMs >= 0.0 {
      BackoffFits(o, attempt, t.jitter);
    }
  }

  /** What is logged of one pass. */
  lemma PassLogged(o: Options, rate: Option<Rate>, tries: nat -> Try, i: nat, k: Clocked)
    requires i >= 1 && Proper(tries(i))
    ensures var v := PlanOf(o, rate, tries)(k, i);
      && (v.waited.Some? <==> Bad(rate, k, tries(i)) && i < o.attempts)
      && (v.again <==> v.waited.Some? && !tries(i).abortedInWait)
      && (v.waited.Some? ==> WaitFits(o, rate, k, tries(i), i, v.waited.value))
  {
    VerdictFits(o, rate, k, i, tries(i));
  }

  ghost predicate PlanFits(o: Options, rate: Option<Rate>, tries: nat -> Try, plan: Plan) {
    forall k: Clocked, i: nat :: i >= 1 ==>
      var v := plan(k, i);
      && (v.waited.Some? <==> Bad(rate, k, tries(i)) && i < o.attempts)
      && (v.again <==> v.waited.Some? && !tries(i).abortedInWait)
      && (v.waited.Some? ==> WaitFits(o, rate, k, tries(i), i, v.waited.value))
  }

  lemma FittingRetries(o: Options, rate: Option<Rate>, tries: nat -> Try, plan: Plan, attempts: nat, waits: seq<Wait>, ks: seq<Clocked>)
    requires Logged(plan, Attempts(o), attempts, waits, ks, false) && PlanFits(o, rate, tries, plan)
    ensures Retries(o, rate, tries, attempts, waits, ks)
  {
  }

  lemma LoggedRetries(o: Options, rate: Option<Rate>, tries: nat -> Try, attempts: nat, waits: seq<Wait>, ks: seq<Clocked>)
    requires Logged(PlanOf(o, rate, tries), Attempts(o), attempts, waits, ks, false) && forall i :: Proper(tries(i))
    ensures Retries(o, rate, tries, attempts, waits, ks)
  {
    forall k: Clocked, i: nat | i >= 1
      ensures var v := PlanOf(o, rate, tries)(k, i);
        && (v.waited.Some? <==> Bad(rate, k, tries(i)) && i < o.attempts)
        && (v.again <==> v.waited.Some? && !tries(i).abortedInWait)
        && (v.waited.Some? ==> WaitFits(o, rate, k, tries(i), i, v.waited.value))
    {
      PassLogged(o, rate, tries, i, k);
    }
    FittingRetries(o, rate, tries, PlanOf(o, rate, tries), attempts, waits, ks);
  }

  /** When every pass gets a bad answer or loses its connection, and none is aborted while it waits, all attempts are made. */
  lemma AllAttemptsAreMade(o: Options, rate: Option<Rate>, tries: nat -> Try, attempts: nat, waits: seq<Wait>, ks: seq<Clocked>)
    requires Retries(o, rate, tries, attempts, waits, ks) && o.attempts >= 1
    requires forall k, i: nat :: i >= 1 ==> Bad(rate, k, tries(i)) && !tries(i).abortedInWait
    ensures attempts == o.attempts && |waits| == o.attempts - 1
  {
    assert Bad(rate, ks[attempts - 1], tries(attempts));
    if attempts > 1 {
      assert Bad(rate, ks[attempts - 2], tries(attempts - 1));
    }
  }

  /** No wait is longer than the longest allowed, and there is one only while an attempt is left. */
  lemma WaitsAreBounded(o: Options, rate: Option<Rate>, k: Clocked, attempt: nat, t: Try)
    requires attempt >= 1 && Proper(t) && o.baseDelayMs >= 0.0 && o.maxDelayMs >= 0.0 && WaitOf(o, rate, k, attempt, t).Some?
    ensures 0.0 <= WaitOf(o, rate, k, attempt, t).value.delay <= o.maxDelayMs && attempt < o.attempts
  {
    BackoffBounds(o, attempt, t.jitter);
  }
}
