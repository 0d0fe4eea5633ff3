/** Labelling the swaps of a router context, all of its calls or none. */
module SwapContext {
  import opened Wrappers

  datatype Swap = Swap(coinIn: string, coinOut: string)

  /** A call that takes the context, by command index, with the coin types it names once each. */
  datatype Call = Call(index: nat, types: seq<string>)

  /** The route the context declares, the calls that take it, and the swaps events state per command. */
  datatype Route = Route(coinIn: string, coinOut: string, calls: seq<Call>, stated: map<nat, seq<Swap>>)

  predicate IsRoundTrip(route: Route) {
    route.coinIn == route.coinOut
  }

  predicate NoRepeat(types: seq<string>) {
    forall i, j :: 0 <= i < j < |types| ==> types[i] != types[j]
  }

  predicate WellFormed(route: Route) {
    forall n :: 0 <= n < |route.calls| ==> NoRepeat(route.calls[n].types)
  }

  // ---------------------------------------------------------------------------
  // What a labelling is
  // ---------------------------------------------------------------------------

  /** Some call from `n` on names `coin`. */
  predicate NamedFrom(calls: seq<Call>, n: nat, coin: string) {
    exists m :: n <= m < |calls| && coin in calls[m].types
  }

  predicate CanTake(route: Route, n: nat, held: set<string>, coin: string)
    requires n < |route.calls|
  {
    coin in route.calls[n].types && coin in held && (IsRoundTrip(route) || coin != route.coinOut)
  }

  predicate CanGive(route: Route, n: nat, coinIn: string, coin: string)
    requires n < |route.calls|
  {
    && coin in route.calls[n].types && coin != coinIn
    && (IsRoundTrip(route) || coin != route.coinIn)
    && (coin == route.coinOut || NamedFrom(route.calls, n + 1, coin))
  }

  /** Call `n` reads as `swap`: it can take that coin in, and given it, that is the one coin it can give out. */
  predicate Reads(route: Route, n: nat, held: set<string>, swap: Swap)
    requires n < |route.calls|
  {
    && CanTake(route, n, held, swap.coinIn)
    && CanGive(route, n, swap.coinIn, swap.coinOut)
    && forall coin :: coin in route.calls[n].types && CanGive(route, n, swap.coinIn, coin) ==> coin == swap.coinOut
  }

  /** `swap` is the only reading of call `n`. */
  ghost predicate OnlyReading(route: Route, n: nat, held: set<string>, swap: Swap)
    requires n < |route.calls|
  {
    Reads(route, n, held, swap) && forall other :: Reads(route, n, held, other) ==> other == swap
  }

  function Outs(swaps: seq<Swap>): set<string> {
    set s | s in swaps :: s.coinOut
  }

  /** The coins the context holds before call `n`: the route's input and what the calls before gave out. */
  function HeldAt(route: Route, labels: seq<seq<Swap>>, n: nat): set<string>
    requires n <= |labels|
  {
    if n == 0 then {route.coinIn} else HeldAt(route, labels, n - 1) + Outs(labels[n - 1])
  }

  /** The label of call `n`: the swaps events state for it, or its only reading. */
  ghost predicate LabelOk(route: Route, labels: seq<seq<Swap>>, n: nat)
    requires n < |labels| <= |route.calls|
  {
    var index := route.calls[n].index;
    if index in route.stated then labels[n] == route.stated[index]
    else |labels[n]| == 1 && OnlyReading(route, n, HeldAt(route, labels, n), labels[n][0])
  }

  /** A labelling of the first calls. */
  ghost predicate Labels(route: Route, labels: seq<seq<Swap>>) {
    |labels| <= |route.calls| && forall n :: 0 <= n < |labels| ==> LabelOk(route, labels, n)
  }

  /** A labelling of the whole context: every call has its label, and the route's output is reached. */
  ghost predicate Labelled(route: Route, labels: seq<seq<Swap>>) {
    Labels(route, labels) && |labels| == |route.calls| && route.coinOut in HeldAt(route, labels, |labels|)
  }

  lemma {:induction false} HeldPrefix(route: Route, a: seq<seq<Swap>>, b: seq<seq<Swap>>, n: nat)
    requires n <= |a| && n <= |b| && a[..n] == b[..n]
    ensures HeldAt(route, a, n) == HeldAt(route, b, n)
  {
    if n > 0 {
      assert a[n - 1] == a[..n][n - 1] && b[n - 1] == b[..n][n - 1];
      assert a[..n - 1] == a[..n][..n - 1] && b[..n - 1] == b[..n][..n - 1];
      HeldPrefix(route, a, b, n - 1);
    }
  }

  /** A context has at most one labelling. */
  lemma {:induction false} LabelsAgree(route: Route, a: seq<seq<Swap>>, b: seq<seq<Swap>>, n: nat)
    requires Labels(route, a) && Labels(route, b) && n <= |a| && n <= |b|
    ensures a[..n] == b[..n]
  {
    if n > 0 {
      LabelsAgree(route, a, b, n - 1);
      HeldPrefix(route, a, b, n - 1);
      assert LabelOk(route, a, n - 1) && LabelOk(route, b, n - 1);
      assert a[n - 1] == b[n - 1];
      assert a[..n] == a[..n - 1] + [a[n - 1]] && b[..n] == b[..n - 1] + [b[n - 1]];
    }
  }

  // ---------------------------------------------------------------------------
  // The algorithm
  // ---------------------------------------------------------------------------

  /** The types of `types` the call can give out for `coinIn`, in order. */
  function Gives(route: Route, n: nat, coinIn: string, types: seq<string>): seq<string>
    requires n < |route.calls| && forall t :: t in types ==> t in route.calls[n].types
  {
    if types == [] then []
    else
      var t, rest := types[0], Gives(route, n, coinIn, types[1..]);
      if t != coinIn && (route.coinIn == route.coinOut || t != route.coinIn)
        && (t == route.coinOut || exists m :: n < m < |route.calls| && t in route.calls[m].types)
      then [t] + rest else rest
  }

  /** The readings of the call whose input is among `types`. */
  function Readings(route: Route, n: nat, held: set<string>, types: seq<string>): seq<Swap>
    requires n < |route.calls| && forall t :: t in types ==> t in route.calls[n].types
  {
    if types == [] then []
    else
      var rest := Readings(route, n, held, types[1..]);
      var gives := Gives(route, n, types[0], route.calls[n].types);
      if types[0] in held && (route.coinIn == route.coinOut || types[0] != route.coinOut) && |gives| == 1 then [Swap(types[0], gives[0])] + rest else rest
  }

  lemma {:induction false} GivesAre(route: Route, n: nat, coinIn: string, types: seq<string>)
    requires n < |route.calls| && (forall t :: t in types ==> t in route.calls[n].types) && NoRepeat(types)
    ensures forall t :: t in Gives(route, n, coinIn, types) <==> t in types && CanGive(route, n, coinIn, t)
    ensures NoRepeat(Gives(route, n, coinIn, types))
  {
    if types != [] {
      GivesAre(route, n, coinIn, types[1..]);
      assert types[0] !in types[1..];
      assert forall t :: t in types <==> t == types[0] || t in types[1..];
    }
  }

  lemma Singleton<T>(s: seq<T>, x: T)
    requires x in s && (forall y :: y in s ==> y == x) && forall i, j :: 0 <= i < j < |s| ==> s[i] != s[j]
    ensures s == [x]
  {
    var i :| 0 <= i < |s| && s[i] == x;
    forall j | 0 <= j < |s| ensures s[j] == x && j == i {
      assert s[j] in s;
    }
    var j := if i == 0 then |s| - 1 else 0;
    assert s[j] == x && j == i;
  }

  /** One coin to give out is exactly what makes a reading. */
  lemma OneGive(route: Route, n: nat, held: set<string>, swap: Swap)
    requires WellFormed(route) && n < |route.calls|
    ensures Reads(route, n, held, swap)
            <==> CanTake(route, n, held, swap.coinIn) && Gives(route, n, swap.coinIn, route.calls[n].types) == [swap.coinOut]
  {
    var gives := Gives(route, n, swap.coinIn, route.calls[n].types);
    GivesAre(route, n, swap.coinIn, route.calls[n].types);
    if Reads(route, n, held, swap) {
      Singleton(gives, swap.coinOut);
    }
    if gives == [swap.coinOut] {
      assert swap.coinOut in gives;
    }
  }

  lemma {:induction false} ReadingsAre(route: Route, n: nat, held: set<string>, types: seq<string>)
    requires WellFormed(route) && n < |route.calls| && (forall t :: t in types ==> t in route.calls[n].types) && NoRepeat(types)
    ensures forall s: Swap :: s in Readings(route, n, held, types) <==> s.coinIn in types && Reads(route, n, held, s)
    ensures forall i, j :: 0 <= i < j < |Readings(route, n, held, types)| ==>
      Readings(route, n, held, types)[i] != Readings(route, n, held, types)[j]
  {
    if types != [] {
      var rest := Readings(route, n, held, types[1..]);
      var gives := Gives(route, n, types[0], route.calls[n].types);
      ReadingsAre(route, n, held, types[1..]);
      assert types[0] !in types[1..];
      forall s: Swap | s.coinIn == types[0] ensures s in Readings(route, n, held, types) <==> Reads(route, n, held, s) {
        OneGive(route, n, held, s);
        assert s !in rest;
      }
      assert forall s: Swap :: s in rest ==> s.coinIn in types[1..];
    }
  }

  /** Exactly one entry in the list of readings is exactly one reading. */
  lemma OneReading(route: Route, n: nat, held: set<string>, swap: Swap)
    requires WellFormed(route) && n < |route.calls|
    ensures Readings(route, n, held, route.calls[n].types) == [swap] <==> OnlyReading(route, n, held, swap)
  {
    var readings := Readings(route, n, held, route.calls[n].types);
    ReadingsAre(route, n, held, route.calls[n].types);
    if readings == [swap] {
      assert swap in readings;
      forall other | Reads(route, n, held, other) ensures other == swap {
        assert other in readings;
      }
    }
    if OnlyReading(route, n, held, swap) {
      Singleton(readings, swap);
    }
  }

  /** A labelling can only go on from the labels found so far with the one reading of the next call. */
  lemma NoOtherLabel(route: Route, labels: seq<seq<Swap>>, all: seq<seq<Swap>>)
    requires WellFormed(route) && Labels(route, labels) && |labels| < |route.calls| && Labelled(route, all)
    requires route.calls[|labels|].index !in route.stated
    ensures |Readings(route, |labels|, HeldAt(route, labels, |labels|), route.calls[|labels|].types)| == 1
  {
    var n := |labels|;
    LabelsAgree(route, all, labels, n);
    HeldPrefix(route, all, labels, n);
    assert LabelOk(route, all, n);
    OneReading(route, n, HeldAt(route, labels, n), all[n][0]);
  }

  lemma AddLabel(route: Route, labels: seq<seq<Swap>>, entry: seq<Swap>)
    requires Labels(route, labels) && |labels| < |route.calls|
    requires var n := |labels|;
      if route.calls[n].index in route.stated then entry == route.stated[route.calls[n].index]
      else |entry| == 1 && OnlyReading(route, n, HeldAt(route, labels, n), entry[0])
    ensures Labels(route, labels + [entry])
    ensures HeldAt(route, labels + [entry], |labels| + 1) == HeldAt(route, labels, |labels|) + Outs(entry)
  {
    var longer := labels + [entry];
    forall n | 0 <= n < |longer| ensures LabelOk(route, longer, n) {
      assert longer[..n] == labels[..n];
      HeldPrefix(route, labels, longer, n);
      if n < |labels| {
        assert LabelOk(route, labels, n);
      }
    }
    assert longer[..|labels|] == labels[..|labels|];
    HeldPrefix(route, labels, longer, |labels|);
  }

  /** Labels every call of a context, or none of them. */
  method LabelContext(route: Route) returns (result: Option<seq<seq<Swap>>>)
    requires WellFormed(route)
    ensures result.Some? ==> Labelled(route, result.value)
    ensures result.None? ==> forall all :: !Labelled(route, all)
  {
    var labels: seq<seq<Swap>> := [];
    var held := {route.coinIn};
    var n := 0;
    while n < |route.calls|
      invariant n == |labels| <= |route.calls| && Labels(route, labels) && held == HeldAt(route, labels, n)
    {
      var call := route.calls[n];
      var entry: seq<Swap>;
      if call.index in route.stated {
        entry := route.stated[call.index];
      } else {
        var readings := Readings(route, n, held, call.types);
        if |readings| != 1 {
          forall all | Labelled(route, all) ensures false {
            NoOtherLabel(route, labels, all);
          }
          return None;
        }
        OneReading(route, n, held, readings[0]);
        entry := [readings[0]];
      }
      AddLabel(route, labels, entry);
      labels := labels + [entry];
      held := held + set s | s in entry :: s.coinOut;
      n := n + 1;
    }
    if route.coinOut !in held {
      forall all | Labelled(route, all) ensures false {
        LabelsAgree(route, all, labels, n);
        HeldPrefix(route, all, labels, n);
      }
      return None;
    }
    result := Some(labels);
  }

  // ---------------------------------------------------------------------------
  // The chain from the route's input to its output
  // ---------------------------------------------------------------------------

  /** Calls `steps`, in order and before call `n`, each take what the one before gave, from the route's input to `coin`. */
  ghost predicate Chain(route: Route, labels: seq<seq<Swap>>, steps: seq<nat>, n: nat, coin: string) {
    && steps != []
    && (forall i :: 0 <= i < |steps| ==> steps[i] < n && steps[i] < |labels| && |labels[steps[i]]| == 1)
    && (forall i :: 0 < i < |steps| ==> steps[i - 1] < steps[i] && labels[steps[i]][0].coinIn == labels[steps[i - 1]][0].coinOut)
    && labels[steps[0]][0].coinIn == route.coinIn
    && labels[steps[|steps| - 1]][0].coinOut == coin
  }

  ghost predicate Unstated(route: Route) {
    forall n :: 0 <= n < |route.calls| ==> route.calls[n].index !in route.stated
  }

  lemma {:induction false} HeldIsReached(route: Route, labels: seq<seq<Swap>>, n: nat, coin: string) returns (steps: seq<nat>)
    requires Labels(route, labels) && Unstated(route) && n <= |labels| && coin in HeldAt(route, labels, n) && coin != route.coinIn
    ensures Chain(route, labels, steps, n, coin)
  {
    if coin in HeldAt(route, labels, n - 1) {
      steps := HeldIsReached(route, labels, n - 1, coin);
    } else {
      assert LabelOk(route, labels, n - 1);
      var swap := labels[n - 1][0];
      assert coin == swap.coinOut;
      if swap.coinIn == route.coinIn {
        steps := [n - 1];
      } else {
        steps := HeldIsReached(route, labels, n - 1, swap.coinIn);
        steps := steps + [n - 1];
      }
    }
  }

  /**
   * With no stated swaps and distinct ends, a labelled context has a chain of
   * labelled hops, in call order, from the route's input to its output.
   */
  lemma LabelledRouteConnects(route: Route, labels: seq<seq<Swap>>) returns (steps: seq<nat>)
    requires Labelled(route, labels) && Unstated(route) && !IsRoundTrip(route)
    ensures Chain(route, labels, steps, |labels|, route.coinOut)
  {
    steps := HeldIsReached(route, labels, |labels|, route.coinOut);
  }

  // ---------------------------------------------------------------------------
  // Reading a context off the commands
  // ---------------------------------------------------------------------------

  /** A command, with its type arguments in canonical form and the commands whose results it takes. */
  datatype Command = MoveCall(moduleName: string, fn: string, types: seq<string>, takes: set<nat>) | OtherCommand

  /** A transaction's commands, the swaps its events state per command, and the swap-named functions that are no swaps. */
  datatype Transaction = Transaction(commands: seq<Command>, stated: map<nat, seq<Swap>>, skips: (string, string) -> bool)

  /** The calls that take the context from `index` on, until one confirms it. */
  datatype Scan = Scan(calls: seq<Call>, confirmed: bool, unread: bool)

  predicate Takes(command: Command, start: nat) {
    command.MoveCall? && start in command.takes
  }

  predicate Confirms(command: Command) {
    command.MoveCall? && command.moduleName == "router" && "confirm_swap" <= command.fn
  }

  /** A call known to swap: events state its swaps, or its name says so and is not one to skip. */
  predicate IsSwap(tx: Transaction, index: nat, command: Command)
    requires command.MoveCall?
  {
    index in tx.stated || ("swap" <= command.fn && !tx.skips(command.moduleName, command.fn))
  }

  function ScanFrom(tx: Transaction, start: nat, coinOut: string, index: nat): Scan
    requires index <= |tx.commands|
    decreases |tx.commands| - index
  {
    if index == |tx.commands| then Scan([], false, false)
    else
      var c := tx.commands[index];
      if !Takes(c, start) then ScanFrom(tx, start, coinOut, index + 1)
      else if Confirms(c) then Scan([], (if c.types == [] then "" else c.types[0]) == coinOut, false)
      else
        var rest := ScanFrom(tx, start, coinOut, index + 1);
        if IsSwap(tx, index, c) then rest.(calls := [Call(index, c.types)] + rest.calls) else rest.(unread := true)
  }

  /** The calls come in the order of their commands, from `from` on. */
  predicate InOrder(calls: seq<Call>, from: nat) {
    && (forall n :: 0 <= n < |calls| ==> from <= calls[n].index)
    && (forall n, m :: 0 <= n < m < |calls| ==> calls[n].index < calls[m].index)
  }

  predicate TakesAt(tx: Transaction, start: nat, i: nat) {
    i < |tx.commands| && Takes(tx.commands[i], start)
  }

  /** `end` is the first command from `index` on that takes the context and confirms it, if there is one. */
  ghost predicate EndsScan(tx: Transaction, start: nat, index: nat, end: nat) {
    && index <= end <= |tx.commands|
    && (forall i: nat :: index <= i < end && TakesAt(tx, start, i) ==> !Confirms(tx.commands[i]))
    && (end < |tx.commands| ==> TakesAt(tx, start, end) && Confirms(tx.commands[end]))
  }

  /** The call is that of a command between that takes the context and is known to swap, with its own types. */
  predicate IsCall(tx: Transaction, start: nat, index: nat, end: nat, call: Call) {
    && index <= call.index < end && TakesAt(tx, start, call.index) && IsSwap(tx, call.index, tx.commands[call.index])
    && call.types == tx.commands[call.index].types
  }

  predicate CallFor(calls: seq<Call>, i: nat) {
    exists n :: 0 <= n < |calls| && calls[n].index == i
  }

  /** The scan, by the positions of the commands. */
  ghost predicate ScanIs(tx: Transaction, start: nat, coinOut: string, index: nat, end: nat, scan: Scan) {
    && EndsScan(tx, start, index, end)
    && (scan.confirmed <==> end < |tx.commands| && (if tx.commands[end].types == [] then "" else tx.commands[end].types[0]) == coinOut)
    && (scan.unread <==> exists i: nat :: index <= i < end && TakesAt(tx, start, i) && !IsSwap(tx, i, tx.commands[i]))
    && InOrder(scan.calls, index)
    && (forall n :: 0 <= n < |scan.calls| ==> IsCall(tx, start, index, end, scan.calls[n]))
    && (forall i: nat :: index <= i < end && TakesAt(tx, start, i) && IsSwap(tx, i, tx.commands[i]) ==> CallFor(scan.calls, i))
  }

  lemma {:induction false} ScanIsSo(tx: Transaction, start: nat, coinOut: string, index: nat) returns (end: nat)
    requires index <= |tx.commands|
    ensures ScanIs(tx, start, coinOut, index, end, ScanFrom(tx, start, coinOut, index))
    decreases |tx.commands| - index
  {
    if index == |tx.commands| || (TakesAt(tx, start, index) && Confirms(tx.commands[index])) {
      end := index;
    } else {
      end := ScanIsSo(tx, start, coinOut, index + 1);
      var rest := ScanFrom(tx, start, coinOut, index + 1);
      if !TakesAt(tx, start, index) {
        PassedScan(tx, start, coinOut, index, end, rest);
      } else if IsSwap(tx, index, tx.commands[index]) {
        CalledScan(tx, start, coinOut, index, end, rest);
      } else {
        UnreadScan(tx, start, coinOut, index, end, rest);
      }
    }
  }

  lemma PassedScan(tx: Transaction, start: nat, coinOut: string, index: nat, end: nat, rest: Scan)
    requires index < |tx.commands| && ScanIs(tx, start, coinOut, index + 1, end, rest) && !TakesAt(tx, start, index)
    ensures ScanIs(tx, start, coinOut, index, end, rest)
  {
  }

  lemma UnreadScan(tx: Transaction, start: nat, coinOut: string, index: nat, end: nat, rest: Scan)
    requires index < |tx.commands| && ScanIs(tx, start, coinOut, index + 1, end, rest)
    requires TakesAt(tx, start, index) && !Confirms(tx.commands[index]) && !IsSwap(tx, index, tx.commands[index])
    ensures ScanIs(tx, start, coinOut, index, end, rest.(unread := true))
  {
  }

  lemma CalledScan(tx: Transaction, start: nat, coinOut: string, index: nat, end: nat, rest: Scan)
    requires index < |tx.commands| && ScanIs(tx, start, coinOut, index + 1, end, rest)
    requires TakesAt(tx, start, index) && !Confirms(tx.commands[index]) && IsSwap(tx, index, tx.commands[index])
    ensures ScanIs(tx, start, coinOut, index, end, rest.(calls := [Call(index, tx.commands[index].types)] + rest.calls))
  {
    OneCallMore(tx, start, index, end, Call(index, tx.commands[index].types), rest.calls);
  }

  lemma OneCallMore(tx: Transaction, start: nat, index: nat, end: nat, call: Call, later: seq<Call>)
    requires InOrder(later, index + 1) && call.index == index && IsCall(tx, start, index, end, call)
    requires forall n :: 0 <= n < |later| ==> IsCall(tx, start, index + 1, end, later[n])
    requires forall i: nat :: index + 1 <= i < end && TakesAt(tx, start, i) && IsSwap(tx, i, tx.commands[i]) ==> CallFor(later, i)
    ensures InOrder([call] + later, index) && forall n :: 0 <= n < |[call] + later| ==> IsCall(tx, start, index, end, ([call] + later)[n])
    ensures forall i: nat :: index <= i < end && TakesAt(tx, start, i) && IsSwap(tx, i, tx.commands[i]) ==> CallFor([call] + later, i)
  {
    var calls := [call] + later;
    forall i: nat | index <= i < end && TakesAt(tx, start, i) && IsSwap(tx, i, tx.commands[i]) ensures CallFor(calls, i) {
      if i == index {
        assert calls[0].index == i;
      } else {
        var n :| 0 <= n < |later| && later[n].index == i;
        assert calls[n + 1].index == i;
      }
    }
  }

  method ScanContext(tx: Transaction, start: nat, coinOut: string)
    returns (scan: Scan, ghost end: nat)
    requires start < |tx.commands|
    ensures scan == ScanFrom(tx, start, coinOut, start + 1) && ScanIs(tx, start, coinOut, start + 1, end, scan)
  {
    end := ScanIsSo(tx, start, coinOut, start + 1);
    var calls: seq<Call> := [];
    var unread := false;
    var index := start + 1;
    while index < |tx.commands|
      invariant start < index <= |tx.commands|
      invariant var rest := ScanFrom(tx, start, coinOut, index);
        ScanFrom(tx, start, coinOut, start + 1) == Scan(calls + rest.calls, rest.confirmed, unread || rest.unread)
    {
      var c := tx.commands[index];
      if c.MoveCall? && start in c.takes {
        if c.moduleName == "router" && "confirm_swap" <= c.fn {
          assert calls + [] == calls;
          return Scan(calls, (if c.types == [] then "" else c.types[0]) == coinOut, unread), end;
        }
        if index in tx.stated || ("swap" <= c.fn && !tx.skips(c.moduleName, c.fn)) {
          ghost var rest := ScanFrom(tx, start, coinOut, index + 1).calls;
          assert calls + ([Call(index, c.types)] + rest) == calls + [Call(index, c.types)] + rest;
          calls := calls + [Call(index, c.types)];
        } else {
          unread := true;
        }
      }
      index := index + 1;
    }
    assert calls + [] == calls;
    scan := Scan(calls, false, unread);
  }

  /** A call with more than two types passes its last one as a possible parameter. */
  predicate PassesLast(call: Call, t: string) {
    |call.types| > 2 && call.types[|call.types| - 1] == t
  }

  /** The types a call names as coins: all but a possible parameter. */
  function Coins(call: Call): seq<string> {
    if |call.types| > 2 then call.types[..|call.types| - 1] else call.types
  }

  /** A pool parameter: passed last by some call, named as a coin by none, and not an end of the route. */
  predicate IsParameter(calls: seq<Call>, coinIn: string, coinOut: string, t: string) {
    && (exists n :: 0 <= n < |calls| && PassesLast(calls[n], t))
    && t != coinIn && t != coinOut
    && forall n :: 0 <= n < |calls| ==> t !in Coins(calls[n])
  }

  function Distinct(types: seq<string>): seq<string>
    decreases |types|
  {
    if types == [] then [] else [types[0]] + Distinct(Minus(types[1..], types[0]))
  }

  function Minus(types: seq<string>, t: string): (rest: seq<string>)
    ensures |rest| <= |types| && (forall x :: x in rest <==> x in types && x != t)
  {
    if types == [] then []
    else if types[0] == t then Minus(types[1..], t)
    else [types[0]] + Minus(types[1..], t)
  }

  lemma {:induction false} DistinctTypes(types: seq<string>)
    ensures NoRepeat(Distinct(types)) && forall t :: t in Distinct(types) <==> t in types
    decreases |types|
  {
    if types != [] {
      DistinctTypes(Minus(types[1..], types[0]));
      assert types[0] !in Distinct(Minus(types[1..], types[0]));
      assert types == [types[0]] + types[1..];
    }
  }

  /** The call's types without pool parameters, each once. */
  function CoinTypes(calls: seq<Call>, coinIn: string, coinOut: string, types: seq<string>): seq<string> {
    if types == [] then []
    else
      var rest := CoinTypes(calls, coinIn, coinOut, types[1..]);
      if IsParameter(calls, coinIn, coinOut, types[0]) then rest else [types[0]] + rest
  }

  function Stripped(calls: seq<Call>, coinIn: string, coinOut: string, some: seq<Call>): (stripped: seq<Call>)
    ensures |stripped| == |some| && forall n :: 0 <= n < |some| ==> stripped[n].index == some[n].index
  {
    if some == [] then []
    else [some[0].(types := Distinct(CoinTypes(calls, coinIn, coinOut, some[0].types)))] + Stripped(calls, coinIn, coinOut, some[1..])
  }

  lemma {:induction false} StrippedDistinct(calls: seq<Call>, coinIn: string, coinOut: string, some: seq<Call>)
    ensures forall n :: 0 <= n < |some| ==> NoRepeat(Stripped(calls, coinIn, coinOut, some)[n].types)
  {
    if some != [] {
      DistinctTypes(CoinTypes(calls, coinIn, coinOut, some[0].types));
      StrippedDistinct(calls, coinIn, coinOut, some[1..]);
    }
  }

  predicate OpensContext(command: Command) {
    command.MoveCall? && command.moduleName == "router" && "new_swap_context" <= command.fn && |command.types| == 2
  }

  /** The route a context declares, when its calls can be read: confirmed with its output, and every call a swap. */
  function RouteOf(tx: Transaction, start: nat): Option<Route>
    requires start < |tx.commands|
  {
    var c := tx.commands[start];
    if !OpensContext(c) then None
    else
      var scan := ScanFrom(tx, start, c.types[1], start + 1);
      if !scan.confirmed || scan.unread || scan.calls == [] then None
      else Some(Route(c.types[0], c.types[1], Stripped(scan.calls, c.types[0], c.types[1], scan.calls), tx.stated))
  }

  ghost predicate IsContext(tx: Transaction, start: nat, labels: seq<seq<Swap>>) {
    start < |tx.commands| && RouteOf(tx, start).Some? && Labelled(RouteOf(tx, start).value, labels)
  }

  // ----- The same, by the positions of the commands -----

  /** Every call between that names `t` names two types before it and `t` last, and only there. */
  predicate OnlyLast(tx: Transaction, start: nat, end: nat, t: string) {
    forall i: nat, p: nat :: start < i < end && TakesAt(tx, start, i) && p < |tx.commands[i].types| && tx.commands[i].types[p] == t ==>
      p >= 2 && p == |tx.commands[i].types| - 1
  }

  /** The call's types are those of its command, once each, but for those that are no end of the route and only ever stand last behind two others. */
  ghost predicate OwnCoins(tx: Transaction, start: nat, end: nat, route: Route, call: Call)
    requires call.index < |tx.commands| && tx.commands[call.index].MoveCall?
  {
    && NoRepeat(call.types)
    && forall t :: t in call.types <==>
         t in tx.commands[call.index].types && (t == route.coinIn || t == route.coinOut || !OnlyLast(tx, start, end, t))
  }

  /**
   * The context opened at `start` and confirmed at `end` declares `route`: the
   * types of the call that opens it are the route's ends, `end` is the first
   * later command that takes it and confirms, with the route's output as its
   * first type, and the calls are exactly the commands between that take it,
   * at least one, each with stated swaps or a name that says so.
   */
  ghost predicate Declares(tx: Transaction, start: nat, end: nat, route: Route) {
    && start < end < |tx.commands|
    && (var c := tx.commands[start];
        c.MoveCall? && c.moduleName == "router" && "new_swap_context" <= c.fn && c.types == [route.coinIn, route.coinOut])
    && EndsScan(tx, start, start + 1, end)
    && (if tx.commands[end].types == [] then "" else tx.commands[end].types[0]) == route.coinOut
    && route.stated == tx.stated && route.calls != [] && InOrder(route.calls, start + 1)
    && (forall n :: 0 <= n < |route.calls| ==>
          var i := route.calls[n].index; i < end && TakesAt(tx, start, i) && OwnCoins(tx, start, end, route, route.calls[n]))
    && (forall i: nat :: start < i < end && TakesAt(tx, start, i) ==> CallFor(route.calls, i) && IsSwap(tx, i, tx.commands[i]))
  }

  /** The types that stay, in terms of the calls as scanned. */
  lemma {:induction false} CoinTypesAre(calls: seq<Call>, coinIn: string, coinOut: string, types: seq<string>)
    ensures forall t :: t in CoinTypes(calls, coinIn, coinOut, types) <==> t in types && !IsParameter(calls, coinIn, coinOut, t)
  {
    if types != [] {
      CoinTypesAre(calls, coinIn, coinOut, types[1..]);
      assert types == [types[0]] + types[1..];
    }
  }

  lemma {:induction false} StrippedAt(calls: seq<Call>, coinIn: string, coinOut: string, some: seq<Call>, n: nat)
    requires n < |some|
    ensures Stripped(calls, coinIn, coinOut, some)[n] == some[n].(types := Distinct(CoinTypes(calls, coinIn, coinOut, some[n].types)))
  {
    if n > 0 {
      StrippedAt(calls, coinIn, coinOut, some[1..], n - 1);
    }
  }

  /** A type of some call is a parameter of the calls exactly when it only ever stands last behind two others. */
  lemma ParameterIsLast(tx: Transaction, start: nat, end: nat, calls: seq<Call>, coinIn: string, coinOut: string, n: nat, t: string)
    requires end <= |tx.commands| && n < |calls| && t in calls[n].types && t != coinIn && t != coinOut
    requires forall m :: 0 <= m < |calls| ==> IsCall(tx, start, start + 1, end, calls[m])
    requires forall i: nat :: start < i < end && TakesAt(tx, start, i) ==> CallFor(calls, i)
    ensures IsParameter(calls, coinIn, coinOut, t) <==> OnlyLast(tx, start, end, t)
  {
    if IsParameter(calls, coinIn, coinOut, t) {
      forall i: nat, p: nat | start < i < end && TakesAt(tx, start, i) && p < |tx.commands[i].types| && tx.commands[i].types[p] == t
        ensures p >= 2 && p == |tx.commands[i].types| - 1
      {
        var m :| 0 <= m < |calls| && calls[m].index == i;
        if !(p >= 2 && p == |tx.commands[i].types| - 1) {
          NamedAsCoin(calls[m], p);
        }
      }
    }
    if OnlyLast(tx, start, end, t) {
      forall m | 0 <= m < |calls| ensures t !in Coins(calls[m]) {
        assert IsCall(tx, start, start + 1, end, calls[m]);
        if t in Coins(calls[m]) {
          var p := NamedBefore(calls[m], t);
        }
      }
      var p: nat :| p < |calls[n].types| && calls[n].types[p] == t;
      assert TakesAt(tx, start, calls[n].index) && tx.commands[calls[n].index].types[p] == t;
      assert PassesLast(calls[n], t);
    }
  }

  /** A type that does not stand last behind two others is named as a coin. */
  lemma NamedAsCoin(call: Call, p: nat)
    requires p < |call.types| && !(p >= 2 && p == |call.types| - 1)
    ensures call.types[p] in Coins(call)
  {
    assert Coins(call)[p] == call.types[p];
  }

  lemma NamedBefore(call: Call, t: string) returns (p: nat)
    requires t in Coins(call)
    ensures p < |call.types| && call.types[p] == t && !(p >= 2 && p == |call.types| - 1)
  {
    p :| p < |Coins(call)| && Coins(call)[p] == t;
  }

  lemma StrippedOwns(tx: Transaction, start: nat, end: nat, route: Route, calls: seq<Call>, n: nat)
    requires end <= |tx.commands| && n < |calls| && route.calls == Stripped(calls, route.coinIn, route.coinOut, calls)
    requires forall m :: 0 <= m < |calls| ==> IsCall(tx, start, start + 1, end, calls[m])
    requires forall i: nat :: start < i < end && TakesAt(tx, start, i) ==> CallFor(calls, i)
    ensures TakesAt(tx, start, route.calls[n].index) && OwnCoins(tx, start, end, route, route.calls[n])
  {
    assert IsCall(tx, start, start + 1, end, calls[n]);
    var types := calls[n].types;
    StrippedAt(calls, route.coinIn, route.coinOut, calls, n);
    CoinTypesAre(calls, route.coinIn, route.coinOut, types);
    DistinctTypes(CoinTypes(calls, route.coinIn, route.coinOut, types));
    forall t | t in types && t != route.coinIn && t != route.coinOut
      ensures IsParameter(calls, route.coinIn, route.coinOut, t) <==> OnlyLast(tx, start, end, t)
    {
      ParameterIsLast(tx, start, end, calls, route.coinIn, route.coinOut, n, t);
    }
  }

  /** What the code reads off the commands is declared by them. */
  lemma ReadIsDeclared(tx: Transaction, start: nat) returns (end: nat)
    requires start < |tx.commands| && RouteOf(tx, start).Some?
    ensures Declares(tx, start, end, RouteOf(tx, start).value)
  {
    var c, route := tx.commands[start], RouteOf(tx, start).value;
    var scan := ScanFrom(tx, start, c.types[1], start + 1);
    end := ScanIsSo(tx, start, c.types[1], start + 1);
    assert c.types == [c.types[0], c.types[1]];
    forall i: nat | start < i < end && TakesAt(tx, start, i) ensures CallFor(route.calls, i) && IsSwap(tx, i, tx.commands[i]) {
      var n :| 0 <= n < |scan.calls| && scan.calls[n].index == i;
      assert route.calls[n].index == i;
    }
    forall n | 0 <= n < |route.calls| ensures OwnCoins(tx, start, end, route, route.calls[n]) {
      assert IsCall(tx, start, start + 1, end, scan.calls[n]);
      StrippedOwns(tx, start, end, route, scan.calls, n);
    }
  }

  /** What the commands declare the code reads. */
  lemma DeclaredIsRead(tx: Transaction, start: nat, end: nat, route: Route)
    requires Declares(tx, start, end, route)
    ensures RouteOf(tx, start).Some?
  {
    var scan := ScanFrom(tx, start, route.coinOut, start + 1);
    var end' := ScanIsSo(tx, start, route.coinOut, start + 1);
    OneEnd(tx, start, start + 1, end, end');
    var i := route.calls[0].index;
    assert TakesAt(tx, start, i) && CallFor(scan.calls, i);
  }

  lemma OneEnd(tx: Transaction, start: nat, index: nat, end: nat, end': nat)
    requires EndsScan(tx, start, index, end) && EndsScan(tx, start, index, end')
    ensures end == end'
  {
  }

  /** The routes agree but for the order in which each call names its types. */
  ghost predicate Alike(a: Route, b: Route) {
    && a.coinIn == b.coinIn && a.coinOut == b.coinOut && a.stated == b.stated && |a.calls| == |b.calls|
    && forall n :: 0 <= n < |a.calls| ==> a.calls[n].index == b.calls[n].index && forall t :: t in a.calls[n].types <==> t in b.calls[n].types
  }

  lemma {:induction false} SameCommands(a: seq<Call>, b: seq<Call>, from: nat)
    requires InOrder(a, from) && InOrder(b, from) && forall i: nat :: CallFor(a, i) <==> CallFor(b, i)
    ensures |a| == |b| && forall n :: 0 <= n < |a| ==> a[n].index == b[n].index
    decreases |a|
  {
    if a != [] && b != [] {
      FirstCommand(a, b, from);
      FirstCommand(b, a, from);
      forall i: nat ensures CallFor(a[1..], i) <==> CallFor(b[1..], i) {
        LaterCommands(a, from, i);
        LaterCommands(b, from, i);
      }
      SameCommands(a[1..], b[1..], a[0].index + 1);
      assert forall n :: 0 < n < |a| ==> a[n] == a[1..][n - 1];
      assert forall n :: 0 < n < |b| ==> b[n] == b[1..][n - 1];
    } else if a != [] {
      assert CallFor(a, a[0].index);
    } else if b != [] {
      assert CallFor(b, b[0].index);
    }
  }

  lemma FirstCommand(a: seq<Call>, b: seq<Call>, from: nat)
    requires InOrder(a, from) && InOrder(b, from) && a != [] && b != [] && forall i: nat :: CallFor(a, i) ==> CallFor(b, i)
    ensures b[0].index <= a[0].index
  {
    assert CallFor(a, a[0].index);
    var n :| 0 <= n < |b| && b[n].index == a[0].index;
  }

  lemma LaterCommands(calls: seq<Call>, from: nat, i: nat)
    requires InOrder(calls, from) && calls != []
    ensures CallFor(calls[1..], i) <==> CallFor(calls, i) && i != calls[0].index
  {
    var later := calls[1..];
    if CallFor(calls, i) && i != calls[0].index {
      var n :| 0 <= n < |calls| && calls[n].index == i;
      assert later[n - 1].index == i;
    }
    if CallFor(later, i) {
      var n :| 0 <= n < |later| && later[n].index == i;
      assert calls[n + 1].index == i;
    }
  }

  /** A start declares one route, the order of types within a call aside. */
  lemma OneRoute(tx: Transaction, start: nat, end: nat, a: Route, end': nat, b: Route)
    requires Declares(tx, start, end, a) && Declares(tx, start, end', b)
    ensures Alike(a, b)
  {
    assert a.coinIn == tx.commands[start].types[0] == b.coinIn && a.coinOut == tx.commands[start].types[1] == b.coinOut;
    OneEnd(tx, start, start + 1, end, end');
    forall i: nat ensures CallFor(a.calls, i) <==> CallFor(b.calls, i) {
      CallsBetween(tx, start, end, a, i);
      CallsBetween(tx, start, end, b, i);
    }
    SameCommands(a.calls, b.calls, start + 1);
    forall n | 0 <= n < |a.calls| ensures forall t :: t in a.calls[n].types <==> t in b.calls[n].types {
      assert OwnCoins(tx, start, end, a, a.calls[n]) && OwnCoins(tx, start, end, b, b.calls[n]);
    }
  }

  lemma CallsBetween(tx: Transaction, start: nat, end: nat, route: Route, i: nat)
    requires Declares(tx, start, end, route)
    ensures CallFor(route.calls, i) <==> start < i < end && TakesAt(tx, start, i)
  {
    if CallFor(route.calls, i) {
      var n :| 0 <= n < |route.calls| && route.calls[n].index == i;
    }
  }

  /** The order of types within a call does not matter to its label. */
  lemma AlikeLabelled(a: Route, b: Route, labels: seq<seq<Swap>>)
    requires Alike(a, b) && Labelled(a, labels)
    ensures Labelled(b, labels)
  {
    forall n | 0 <= n <= |labels| ensures HeldAt(a, labels, n) == HeldAt(b, labels, n) {
      AlikeHeld(a, b, labels, n);
    }
    forall n | 0 <= n < |labels| ensures LabelOk(b, labels, n) {
      assert LabelOk(a, labels, n);
      forall swap ensures Reads(a, n, HeldAt(a, labels, n), swap) <==> Reads(b, n, HeldAt(b, labels, n), swap) {
        AlikeReads(a, b, n, HeldAt(a, labels, n), swap);
      }
    }
  }

  lemma {:induction false} AlikeHeld(a: Route, b: Route, labels: seq<seq<Swap>>, n: nat)
    requires a.coinIn == b.coinIn && n <= |labels|
    ensures HeldAt(a, labels, n) == HeldAt(b, labels, n)
  {
    if n > 0 {
      AlikeHeld(a, b, labels, n - 1);
    }
  }

  lemma AlikeReads(a: Route, b: Route, n: nat, held: set<string>, swap: Swap)
    requires Alike(a, b) && n < |a.calls|
    ensures Reads(a, n, held, swap) <==> Reads(b, n, held, swap)
  {
    forall coin ensures CanGive(a, n, swap.coinIn, coin) <==> CanGive(b, n, swap.coinIn, coin) {
      AlikeNamed(a, b, n + 1, coin);
      AlikeNamed(b, a, n + 1, coin);
    }
  }

  lemma AlikeNamed(a: Route, b: Route, n: nat, coin: string)
    requires Alike(a, b)
    ensures NamedFrom(a.calls, n, coin) ==> NamedFrom(b.calls, n, coin)
  {
    if NamedFrom(a.calls, n, coin) {
      var m :| n <= m < |a.calls| && coin in a.calls[m].types;
      assert coin in b.calls[m].types;
    }
  }

  /** The commands that take part are those between that take the context. */
  lemma MembersTake(tx: Transaction, start: nat, end: nat, route: Route, i: nat)
    requires Declares(tx, start, end, route)
    ensures i in Members(tx, start) <==> start < i < end && TakesAt(tx, start, i)
  {
    DeclaredIsRead(tx, start, end, route);
    var end' := ReadIsDeclared(tx, start);
    OneEnd(tx, start, start + 1, end, end');
    CallsBetween(tx, start, end', RouteOf(tx, start).value, i);
  }

  /**
   * The labellings of the context at `start` are those of the route that the
   * commands declare there, if they do.
   */
  lemma ContextIsDeclared(tx: Transaction, start: nat, labels: seq<seq<Swap>>)
    ensures IsContext(tx, start, labels) <==> exists end, route :: Declares(tx, start, end, route) && Labelled(route, labels)
  {
    if IsContext(tx, start, labels) {
      var end := ReadIsDeclared(tx, start);
    }
    if end, route :| Declares(tx, start, end, route) && Labelled(route, labels) {
      DeclaredIsRead(tx, start, end, route);
      var end' := ReadIsDeclared(tx, start);
      OneRoute(tx, start, end, route, end', RouteOf(tx, start).value);
      AlikeLabelled(route, RouteOf(tx, start).value, labels);
    }
  }

  ghost predicate CanLabel(tx: Transaction, start: nat) {
    exists labels :: IsContext(tx, start, labels)
  }

  /** No context that starts after `start` and before `bound` and can be labelled takes command `index`. */
  ghost predicate NoneLater(tx: Transaction, start: nat, bound: nat, index: nat) {
    forall later: nat :: start < later < bound && CanLabel(tx, later) ==> index !in Members(tx, later)
  }

  /** The context at `start` is the last labelled one before `bound` that takes command `index`, as its call `n`. */
  ghost predicate LastLabel(tx: Transaction, bound: nat, index: nat, start: nat, labels: seq<seq<Swap>>, n: nat) {
    && start < bound && IsContext(tx, start, labels) && NoneLater(tx, start, bound, index)
    && n < |labels| && RouteOf(tx, start).value.calls[n].index == index
  }

  /** `entry` is the label of command `index` in the last labelled context before `bound` that takes it. */
  ghost predicate LabelOf(tx: Transaction, bound: nat, index: nat, entry: seq<Swap>) {
    exists start: nat, labels, n: nat :: LastLabel(tx, bound, index, start, labels, n) && labels[n] == entry
  }

  /** Sets the label of each call of one context. */
  function Put(hops: map<nat, seq<Swap>>, calls: seq<Call>, labels: seq<seq<Swap>>): (put: map<nat, seq<Swap>>)
    requires |calls| == |labels|
    ensures put.Keys == hops.Keys + Indices(calls)
    decreases |calls|
  {
    if calls == [] then hops
    else
      var last := |calls| - 1;
      var before := Put(hops, calls[..last], labels[..last]);
      before[calls[last].index := labels[last]]
  }

  function Indices(calls: seq<Call>): set<nat> {
    set n | 0 <= n < |calls| :: calls[n].index
  }

  lemma {:induction false} IndicesMore(calls: seq<Call>)
    requires calls != []
    ensures Indices(calls) == Indices(calls[..|calls| - 1]) + {calls[|calls| - 1].index}
  {
    var before := calls[..|calls| - 1];
    forall i | i in Indices(calls) ensures i in Indices(before) || i == calls[|calls| - 1].index {
      var n :| 0 <= n < |calls| && calls[n].index == i;
      assert n < |before| ==> before[n].index == i;
    }
    forall i | i in Indices(before) ensures i in Indices(calls) {
      var n :| 0 <= n < |before| && before[n].index == i;
      assert calls[n].index == i;
    }
  }

  /** A command keeps its hop unless a call of the context is for it; then it has the label of such a call. */
  lemma {:induction false} PutAt(hops: map<nat, seq<Swap>>, calls: seq<Call>, labels: seq<seq<Swap>>, index: nat) returns (n: nat)
    requires |calls| == |labels| && index in Put(hops, calls, labels)
    ensures index !in Indices(calls) ==> index in hops && Put(hops, calls, labels)[index] == hops[index]
    ensures index in Indices(calls) ==> n < |calls| && calls[n].index == index && labels[n] == Put(hops, calls, labels)[index]
    decreases |calls|
  {
    n := 0;
    if calls != [] {
      var last := |calls| - 1;
      IndicesMore(calls);
      if calls[last].index == index {
        n := last;
      } else {
        n := PutAt(hops, calls[..last], labels[..last], index);
      }
    }
  }

  /** The commands that take part in the context at `start`, if it can be read. */
  function Members(tx: Transaction, start: nat): set<nat> {
    if start < |tx.commands| && RouteOf(tx, start).Some? then Indices(RouteOf(tx, start).value.calls) else {}
  }

  /** The context that starts at `start`, if there is one to label. */
  method ContextAt(tx: Transaction, start: nat)
    returns (found: bool, calls: seq<Call>, labels: seq<seq<Swap>>)
    requires start < |tx.commands|
    ensures found ==> IsContext(tx, start, labels) && |calls| == |labels| && RouteOf(tx, start).value.calls == calls
    ensures !found ==> !CanLabel(tx, start)
  {
    found, calls, labels := false, [], [];
    var c := tx.commands[start];
    if !c.MoveCall? || c.moduleName != "router" || !("new_swap_context" <= c.fn) || |c.types| != 2 {
      return;
    }
    var scan, end := ScanContext(tx, start, c.types[1]);
    if !scan.confirmed || scan.unread || scan.calls == [] {
      return;
    }
    StrippedDistinct(scan.calls, c.types[0], c.types[1], scan.calls);
    var route := Route(c.types[0], c.types[1], Stripped(scan.calls, c.types[0], c.types[1], scan.calls), tx.stated);
    assert RouteOf(tx, start) == Some(route);
    var result := LabelContext(route);
    if result.Some? {
      found, calls, labels := true, route.calls, result.value;
    }
  }

  /**
   * What is known once the commands before `bound` have been looked at: every
   * context there that can be labelled is, and only those; each label is that
   * of the last such context that takes the call, and each of their calls has one.
   */
  ghost predicate LabelledBefore(tx: Transaction, bound: nat, hops: map<nat, seq<Swap>>, contexts: set<nat>) {
    ContextsAre(tx, bound, contexts) && LabelsAre(tx, bound, hops) && AllLabelled(tx, contexts, hops)
  }

  ghost predicate ContextsAre(tx: Transaction, bound: nat, contexts: set<nat>) {
    forall start :: start in contexts <==> 0 <= start < bound && CanLabel(tx, start)
  }

  ghost predicate LabelsAre(tx: Transaction, bound: nat, hops: map<nat, seq<Swap>>) {
    forall index :: index in hops ==> LabelOf(tx, bound, index, hops[index])
  }

  ghost predicate AllLabelled(tx: Transaction, contexts: set<nat>, hops: map<nat, seq<Swap>>) {
    forall start :: start in contexts ==> Members(tx, start) <= hops.Keys
  }

  method SwapContextHops(tx: Transaction) returns (hops: map<nat, seq<Swap>>, contexts: set<nat>)
    ensures LabelledBefore(tx, |tx.commands|, hops, contexts)
  {
    hops, contexts := map[], {};
    for start := 0 to |tx.commands|
      invariant LabelledBefore(tx, start, hops, contexts)
    {
      hops, contexts := AddContext(tx, start, hops, contexts);
    }
  }

  /** The loop's body: label the context at `start`, if there is one to label. */
  method AddContext(tx: Transaction, start: nat, hops: map<nat, seq<Swap>>, contexts: set<nat>)
    returns (hops': map<nat, seq<Swap>>, contexts': set<nat>)
    requires start < |tx.commands| && LabelledBefore(tx, start, hops, contexts)
    ensures LabelledBefore(tx, start + 1, hops', contexts')
  {
    var found, calls, labels := ContextAt(tx, start);
    if !found {
      WithoutContext(tx, start, hops, contexts);
      return hops, contexts;
    }
    WithContext(tx, start, hops, contexts, calls, labels);
    hops', contexts' := Put(hops, calls, labels), contexts + {start};
  }

  lemma WithoutContext(tx: Transaction, start: nat, hops: map<nat, seq<Swap>>, contexts: set<nat>)
    requires LabelledBefore(tx, start, hops, contexts) && !CanLabel(tx, start)
    ensures LabelledBefore(tx, start + 1, hops, contexts)
  {
    NextContexts(tx, start, contexts);
    forall index | index in hops ensures LabelOf(tx, start + 1, index, hops[index]) {
      LaterBound(tx, start, hops, index);
    }
  }

  lemma {:induction false} WithContext(tx: Transaction, start: nat, hops: map<nat, seq<Swap>>, contexts: set<nat>, calls: seq<Call>, labels: seq<seq<Swap>>)
    requires LabelledBefore(tx, start, hops, contexts)
    requires IsContext(tx, start, labels) && |calls| == |labels| && RouteOf(tx, start).value.calls == calls
    ensures LabelledBefore(tx, start + 1, Put(hops, calls, labels), contexts + {start})
  {
    assert CanLabel(tx, start);
    NextContexts(tx, start, contexts);
    PutLabels(tx, start, hops, calls, labels);
    PutAll(tx, start, hops, contexts, calls, labels);
  }

  lemma NextContexts(tx: Transaction, start: nat, contexts: set<nat>)
    requires ContextsAre(tx, start, contexts)
    ensures ContextsAre(tx, start + 1, if CanLabel(tx, start) then contexts + {start} else contexts)
  {
  }

  lemma {:induction false} PutAll(tx: Transaction, start: nat, hops: map<nat, seq<Swap>>, contexts: set<nat>, calls: seq<Call>, labels: seq<seq<Swap>>)
    requires AllLabelled(tx, contexts, hops) && start < |tx.commands| && RouteOf(tx, start).Some? && |calls| == |labels|
    requires RouteOf(tx, start).value.calls == calls
    ensures AllLabelled(tx, contexts + {start}, Put(hops, calls, labels))
  {
    var put := Put(hops, calls, labels);
    MembersPut(tx, start, hops, calls, labels);
    forall other | other in contexts + {start} ensures Members(tx, other) <= put.Keys {
      if other != start {
        assert Members(tx, other) <= hops.Keys;
      }
    }
  }

  lemma {:induction false} MembersPut(tx: Transaction, start: nat, hops: map<nat, seq<Swap>>, calls: seq<Call>, labels: seq<seq<Swap>>)
    requires start < |tx.commands| && RouteOf(tx, start).Some? && |calls| == |labels| && RouteOf(tx, start).value.calls == calls
    ensures hops.Keys <= Put(hops, calls, labels).Keys && Members(tx, start) <= Put(hops, calls, labels).Keys
  {
    assert Members(tx, start) == Indices(calls);
  }

  lemma {:induction false} LaterBound(tx: Transaction, bound: nat, hops: map<nat, seq<Swap>>, index: nat)
    requires index in hops && LabelOf(tx, bound, index, hops[index])
    requires CanLabel(tx, bound) ==> index !in Members(tx, bound)
    ensures LabelOf(tx, bound + 1, index, hops[index])
  {
    var start: nat, labels, n: nat :| LastLabel(tx, bound, index, start, labels, n) && labels[n] == hops[index];
    assert NoneLater(tx, start, bound + 1, index) && LastLabel(tx, bound + 1, index, start, labels, n);
  }

  lemma {:induction false} PutLabels(tx: Transaction, start: nat, hops: map<nat, seq<Swap>>, calls: seq<Call>, labels: seq<seq<Swap>>)
    requires IsContext(tx, start, labels) && |calls| == |labels| && RouteOf(tx, start).value.calls == calls
    requires LabelsAre(tx, start, hops)
    ensures LabelsAre(tx, start + 1, Put(hops, calls, labels))
  {
    var put := Put(hops, calls, labels);
    forall index | index in put ensures LabelOf(tx, start + 1, index, put[index]) {
      var n := PutAt(hops, calls, labels, index);
      if index in Indices(calls) {
        assert NoneLater(tx, start, start + 1, index) && LastLabel(tx, start + 1, index, start, labels, n);
      } else {
        LaterBound(tx, start, hops, index);
      }
    }
  }

  // ---------------------------------------------------------------------------
  // Nothing left open
  // ---------------------------------------------------------------------------

  /** The last context that takes a command is one, and the command is one call of it. */
  lemma {:induction false} OneLast(tx: Transaction, bound: nat, index: nat, i: nat, a: seq<seq<Swap>>, n: nat, j: nat, b: seq<seq<Swap>>, m: nat)
    requires LastLabel(tx, bound, index, i, a, n) && LastLabel(tx, bound, index, j, b, m)
    ensures i == j && a == b && n == m
  {
    assert CanLabel(tx, i) && index in Members(tx, i);
    assert CanLabel(tx, j) && index in Members(tx, j);
    assert i == j;
    LabelsAgree(RouteOf(tx, i).value, a, b, |a|);
    assert a[..|a|] == a && b[..|b|] == b;
    var end := ScanIsSo(tx, i, tx.commands[i].types[1], i + 1);
  }

  /** Two labels of one command, each of the last context that takes it, are one. */
  lemma {:induction false} OneLabel(tx: Transaction, bound: nat, index: nat, a: seq<Swap>, b: seq<Swap>)
    requires LabelOf(tx, bound, index, a) && LabelOf(tx, bound, index, b)
    ensures a == b
  {
    var i: nat, labels, n: nat :| LastLabel(tx, bound, index, i, labels, n) && labels[n] == a;
    var j: nat, others, m: nat :| LastLabel(tx, bound, index, j, others, m) && others[m] == b;
    OneLast(tx, bound, index, i, labels, n, j, others, m);
  }

  /** The description leaves nothing open: one map of hops, and one set of contexts, answers to it. */
  lemma {:induction false} HopsUnique(tx: Transaction, bound: nat, hops: map<nat, seq<Swap>>, contexts: set<nat>, hops': map<nat, seq<Swap>>, contexts': set<nat>)
    requires LabelledBefore(tx, bound, hops, contexts) && LabelledBefore(tx, bound, hops', contexts')
    ensures hops == hops' && contexts == contexts'
  {
    assert forall start :: start in contexts <==> start in contexts';
    forall index | index in hops ensures index in hops' && hops[index] == hops'[index] {
      LabelledIsMember(tx, bound, index, hops[index], contexts, hops');
      OneLabel(tx, bound, index, hops[index], hops'[index]);
    }
    forall index | index in hops' ensures index in hops {
      LabelledIsMember(tx, bound, index, hops'[index], contexts, hops);
    }
  }

  lemma {:induction false} LabelledIsMember(tx: Transaction, bound: nat, index: nat, entry: seq<Swap>, contexts: set<nat>, hops: map<nat, seq<Swap>>)
    requires LabelOf(tx, bound, index, entry) && ContextsAre(tx, bound, contexts) && AllLabelled(tx, contexts, hops)
    ensures index in hops
  {
    var start: nat, labels, n: nat :| LastLabel(tx, bound, index, start, labels, n) && labels[n] == entry;
    assert CanLabel(tx, start) && index in Members(tx, start);
    assert start in contexts;
  }
}
