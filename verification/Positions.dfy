/** Setting unexplained coins against what the valued positions of a transaction gave up. */
module Positions {
  import opened Wrappers

  type Coin = string
  /** A coin type's canonical spelling. */
  type Canon = Coin -> Coin


  datatype Held = Held(coin: Coin, amount: int)

  /** A valued object the transaction moved, changed in place or deleted; `custody` marks a change of keeper only. */
  datatype Moved = Moved(custody: bool, inPlace: bool, sender: Option<string>, recipient: Option<string>, amounts: Option<seq<Held>>)

  datatype Unexplained = Unexplained(coin: Coin, amount: int, usd: Option<real>)

  datatype Reconciliation = Reconciliation(unexplained: seq<Unexplained>, unexplainedUsd: real, unpriced: nat, positionsUsd: Option<real>)

  function Min(a: int, b: int): int { if a < b then a else b }
  function Max(a: int, b: int): int { if a < b then b else a }

  // ----- What the positions released -----

  predicate Consumed(row: Moved) {
    !row.inPlace && row.recipient.None? && row.sender.Some?
  }

  /** The held amounts of a row that may have come out of it. */
  function Contents(row: Moved): seq<Held> {
    if row.custody || row.amounts.None? || (!Consumed(row) && !row.inPlace) then [] else row.amounts.value
  }

  /** What came out of a row by one of its amounts: all it held if consumed, any fall in what it holds if kept. */
  function Out(row: Moved, held: Held): nat {
    Max(0, if Consumed(row) then held.amount else -held.amount)
  }

  /**
   * What one amount of a row releases: all of it when its sender gave the
   * position up to nobody, any fall of it when the position was changed in
   * place, and nothing when it only changed keepers or went to somebody.
   */
  lemma AmountReleases(canon: Canon, row: Moved, held: Held)
    ensures var one := row.(amounts := Some([held]));
      ReleasedBy(canon, [one], 1, canon(held.coin))
      == if row.custody then 0
         else if row.inPlace then if held.amount < 0 then -held.amount else 0
         else if row.sender.Some? && row.recipient.None? then if held.amount > 0 then held.amount else 0
         else 0
    ensures forall key :: key != canon(held.coin) ==> ReleasedBy(canon, [row.(amounts := Some([held]))], 1, key) == 0
  {
    var one := row.(amounts := Some([held]));
    assert [one][0] == one;
    forall key ensures ReleasedBy(canon, [one], 1, key) == ReleasedIn(canon, one, |Contents(one)|, key) {
      assert ReleasedBy(canon, [one], 0, key) == 0;
    }
    if Contents(one) != [] {
      assert ReleasedIn(canon, one, 0, canon(held.coin)) == 0;
      forall key ensures ReleasedIn(canon, one, 1, key) == if canon(held.coin) == key then Out(one, held) else 0 {
        assert ReleasedIn(canon, one, 0, key) == 0;
      }
    }
  }

  /** A row releases what its amounts do, each on its own. */
  lemma {:induction false} RowReleases(canon: Canon, row: Moved, n: nat, key: Coin)
    requires n < |Contents(row)|
    ensures ReleasedIn(canon, row, n + 1, key)
         == ReleasedIn(canon, row, n, key) + ReleasedBy(canon, [row.(amounts := Some([Contents(row)[n]]))], 1, key)
  {
    var held := Contents(row)[n];
    var one := row.(amounts := Some([held]));
    assert [one][0] == one && Contents(one) == [held] && Out(one, held) == Out(row, held);
    assert ReleasedIn(canon, one, 0, key) == 0 && ReleasedBy(canon, [one], 0, key) == 0;
  }

  /** What the first `n` amounts of a row released of one coin. */
  function ReleasedIn(canon: Canon, row: Moved, n: nat, key: Coin): nat
    requires n <= |Contents(row)|
  {
    if n == 0 then 0
    else
      var held := Contents(row)[n - 1];
      ReleasedIn(canon, row, n - 1, key) + if canon(held.coin) == key then Out(row, held) else 0
  }

  /** What the first `n` rows released of one coin. */
  function ReleasedBy(canon: Canon, rows: seq<Moved>, n: nat, key: Coin): nat
    requires n <= |rows|
  {
    if n == 0 then 0
    else ReleasedBy(canon, rows, n - 1, key) + ReleasedIn(canon, rows[n - 1], |Contents(rows[n - 1])|, key)
  }

  function Released(canon: Canon, rows: seq<Moved>, key: Coin): nat {
    ReleasedBy(canon, rows, |rows|, key)
  }

  type Balances = map<Coin, int>

  function Balance(m: Balances, key: Coin): int {
    if key in m then m[key] else 0
  }

  /** The balances released, per coin: an entry only for a coin of which something came out. */
  method Release(canon: Canon, rows: seq<Moved>) returns (released: Balances)
    ensures forall key :: Balance(released, key) == Released(canon, rows, key)
    ensures forall key :: key in released ==> released[key] > 0
  {
    released := map[];
    for i := 0 to |rows|
      invariant forall key :: Balance(released, key) == ReleasedBy(canon, rows, i, key)
      invariant forall key :: key in released ==> released[key] > 0
    {
      released := ReleaseRow(canon, rows[i], released);
    }
  }

  method ReleaseRow(canon: Canon, row: Moved, before: Balances) returns (released: Balances)
    requires forall key :: key in before ==> before[key] > 0
    ensures forall key :: Balance(released, key) == Balance(before, key) + ReleasedIn(canon, row, |Contents(row)|, key)
    ensures forall key :: key in released ==> released[key] > 0
  {
    released := before;
    if row.custody || row.amounts.None? {
      return;
    }
    var consumed := !row.inPlace && row.recipient.None? && row.sender.Some?;
    if !consumed && !row.inPlace {
      return;
    }
    var amounts := row.amounts.value;
    for j := 0 to |amounts|
      invariant forall key :: Balance(released, key) == Balance(before, key) + ReleasedIn(canon, row, j, key)
      invariant forall key :: key in released ==> released[key] > 0
    {
      var out := if consumed then amounts[j].amount else -amounts[j].amount;
      if out > 0 {
        var key := canon(amounts[j].coin);
        released := released[key := Balance(released, key) + out];
      }
    }
  }

  // ----- What each unexplained row gets -----

  /** How much of one coin the rows hold. */
  function Amount(canon: Canon, us: seq<Unexplained>, key: Coin): int {
    if us == [] then 0
    else
      var u := us[|us| - 1];
      Amount(canon, us[..|us| - 1], key) + if canon(u.coin) == key then u.amount else 0
  }

  /** What is left of `total` for row `i` once the rows before it were served in full, as far as it goes. */
  function Left(canon: Canon, total: Coin -> nat, us: seq<Unexplained>, i: nat, key: Coin): nat
    requires i <= |us|
  {
    Max(0, total(key) - Amount(canon, us[..i], key))
  }

  /** The part of row `i` the positions explain. */
  function Explained(canon: Canon, total: Coin -> nat, us: seq<Unexplained>, i: nat): int
    requires i < |us|
  {
    Min(us[i].amount, Left(canon, total, us, i, canon(us[i].coin)))
  }

  ghost predicate Positive(us: seq<Unexplained>) {
    forall i :: 0 <= i < |us| ==> us[i].amount > 0
  }

  /** No amount is negative: a row that asks for nothing is passed over. */
  ghost predicate Counted(us: seq<Unexplained>) {
    forall i :: 0 <= i < |us| ==> us[i].amount >= 0
  }

  lemma {:induction false} AmountMore(canon: Canon, us: seq<Unexplained>, u: Unexplained, key: Coin)
    ensures Amount(canon, us + [u], key) == Amount(canon, us, key) + if canon(u.coin) == key then u.amount else 0
  {
    assert (us + [u])[..|us|] == us;
  }

  /** One row more of a prefix. */
  lemma {:induction false} PrefixMore(canon: Canon, us: seq<Unexplained>, n: nat, key: Coin)
    requires n < |us|
    ensures us[..n + 1] == us[..n] + [us[n]]
    ensures Amount(canon, us[..n + 1], key) == Amount(canon, us[..n], key) + if canon(us[n].coin) == key then us[n].amount else 0
  {
    assert us[..n + 1] == us[..n] + [us[n]];
    AmountMore(canon, us[..n], us[n], key);
  }

  /** Everything the first `n` rows had explained, of one coin. */
  function ExplainedOf(canon: Canon, total: Coin -> nat, us: seq<Unexplained>, n: nat, key: Coin): int
    requires n <= |us|
  {
    if n == 0 then 0
    else
      ExplainedOf(canon, total, us, n - 1, key)
      + if canon(us[n - 1].coin) == key then Explained(canon, total, us, n - 1) else 0
  }

  /** Conservation: of every coin, what is explained is all that was asked for or all that was released, whichever is less. */
  lemma {:induction false} ExplainsAllItCan(canon: Canon, total: Coin -> nat, us: seq<Unexplained>, n: nat, key: Coin)
    requires n <= |us| && Counted(us)
    ensures ExplainedOf(canon, total, us, n, key) == Min(Amount(canon, us[..n], key), total(key))
    ensures 0 <= Amount(canon, us[..n], key)
  {
    if n > 0 {
      ExplainsAllItCan(canon, total, us, n - 1, key);
      PrefixMore(canon, us, n - 1, key);
    }
  }

  /** What is asked for only grows. */
  lemma {:induction false} AskedGrows(canon: Canon, us: seq<Unexplained>, i: nat, j: nat, key: Coin)
    requires i <= j <= |us| && Counted(us)
    ensures Amount(canon, us[..i], key) <= Amount(canon, us[..j], key)
    decreases j - i
  {
    if i < j {
      AskedGrows(canon, us, i, j - 1, key);
      PrefixMore(canon, us, j - 1, key);
    }
  }

  /** Rows are served in order: once one is not explained in full, no later row of its coin is explained at all. */
  lemma {:induction false} ServedInOrder(canon: Canon, total: Coin -> nat, us: seq<Unexplained>, i: nat, j: nat)
    requires i < j < |us| && Counted(us) && canon(us[i].coin) == canon(us[j].coin)
    requires Explained(canon, total, us, i) < us[i].amount
    ensures Explained(canon, total, us, j) == 0
  {
    PrefixMore(canon, us, i, canon(us[i].coin));
    AskedGrows(canon, us, i + 1, j, canon(us[i].coin));
  }

  // ----- In dollars -----

  /** The nearest number of cents, a half going away from zero. */
  function Hundredths(x: real): int {
    if x < 0.0 then -(-x * 100.0 + 0.5).Floor else (x * 100.0 + 0.5).Floor
  }

  function Cents(x: real): (r: real)
    ensures -0.005 <= r - x <= 0.005
  {
    Hundredths(x) as real / 100.0
  }

  predicate WholeCents(x: real) {
    (x * 100.0).Floor as real == x * 100.0
  }

  lemma WholeIfInteger(x: real, n: int)
    requires x * 100.0 == n as real
    ensures WholeCents(x)
  {
  }

  lemma CentsAreWhole(x: real)
    ensures WholeCents(Cents(x))
  {
    WholeIfInteger(Cents(x), Hundredths(x));
  }

  lemma WholeCentsAdd(x: real, y: real)
    requires WholeCents(x) && WholeCents(y)
    ensures WholeCents(x + y)
  {
    WholeIfInteger(x + y, (x * 100.0).Floor + (y * 100.0).Floor);
  }

  /** A whole number of cents is not rounded further. */
  lemma CentsOfWhole(x: real)
    requires WholeCents(x)
    ensures Cents(x) == x
  {
    assert Hundredths(x) == (x * 100.0).Floor;
  }

  /** What a row is worth, unless it has no price or asks for nothing. */
  function Price(u: Unexplained): Option<real> {
    if u.amount == 0 then None else u.usd
  }

  /** The price of one unit of a row's coin, from what the whole row is worth. */
  function UnitPrice(u: Unexplained): Option<real> {
    if Price(u).None? then None else Some(u.usd.value / u.amount as real)
  }

  /** What some units of a row's coin are worth. */
  function Worth(u: Unexplained, units: int): Option<real> {
    if Price(u).None? then None else Some(Times(UnitPrice(u).value, units))
  }

  function Times(price: real, units: int): real {
    price * units as real
  }

  function Usd(price: Option<real>): real {
    if price.None? then 0.0 else price.value
  }

  /** A row's remainder, priced to the cent. */
  function Rest(u: Unexplained, rest: int): Unexplained {
    Unexplained(u.coin, rest, if Price(u).None? then None else Some(Cents(Worth(u, rest).value)))
  }

  /** What is left of the first `n` rows, those explained in full dropped. */
  function Rests(canon: Canon, total: Coin -> nat, us: seq<Unexplained>, n: nat): seq<Unexplained>
    requires n <= |us| && Counted(us)
  {
    if n == 0 then []
    else
      RestJoined(Rests(canon, total, us, n - 1), us[n - 1], Explained(canon, total, us, n - 1))
  }

  /** The dollars of what the positions explain in the first `n` rows. */
  function PositionsUsd(canon: Canon, total: Coin -> nat, us: seq<Unexplained>, n: nat): real
    requires n <= |us| && Counted(us)
  {
    if n == 0 then 0.0
    else PositionsUsd(canon, total, us, n - 1) + Usd(Worth(us[n - 1], Explained(canon, total, us, n - 1)))
  }

  function PricedUsd(us: seq<Unexplained>): real {
    if us == [] then 0.0 else PricedUsd(us[..|us| - 1]) + Usd(Price(us[|us| - 1]))
  }

  function PricedRows(us: seq<Unexplained>): nat {
    if us == [] then 0 else PricedRows(us[..|us| - 1]) + if Price(us[|us| - 1]).None? then 0 else 1
  }

  function Unpriced(us: seq<Unexplained>): nat {
    if us == [] then 0 else Unpriced(us[..|us| - 1]) + if Price(us[|us| - 1]).None? then 1 else 0
  }

  lemma {:induction false} PricedMore(us: seq<Unexplained>, u: Unexplained)
    ensures PricedUsd(us + [u]) == PricedUsd(us) + Usd(Price(u))
    ensures PricedRows(us + [u]) == PricedRows(us) + if Price(u).None? then 0 else 1
    ensures Unpriced(us + [u]) == Unpriced(us) + if Price(u).None? then 1 else 0
  {
    assert (us + [u])[..|us|] == us;
  }

  /** A row's rest joins those before it, unless nothing is left of the row. */
  function RestJoined(rests: seq<Unexplained>, u: Unexplained, part: int): (r: seq<Unexplained>)
  {
    var rest := u.amount - part;
    if rest <= 0 then rests else rests + [Rest(u, rest)]
  }

  lemma {:induction false} AmountJoined(canon: Canon, rests: seq<Unexplained>, u: Unexplained, part: int, key: Coin)
    requires 0 <= part <= u.amount && Positive(rests)
    ensures Positive(RestJoined(rests, u, part))
    ensures Amount(canon, RestJoined(rests, u, part), key)
         == Amount(canon, rests, key) + if canon(u.coin) == key then u.amount - part else 0
  {
    AmountMore(canon, rests, Rest(u, u.amount - part), key);
  }

  /** Every coin's amount splits exactly into the explained part and the rests. */
  lemma {:induction false} NothingLost(canon: Canon, total: Coin -> nat, us: seq<Unexplained>, n: nat, key: Coin)
    requires n <= |us| && Counted(us)
    ensures ExplainedOf(canon, total, us, n, key) + Amount(canon, Rests(canon, total, us, n), key) == Amount(canon, us[..n], key)
    ensures Positive(Rests(canon, total, us, n))
  {
    if n > 0 {
      NothingLost(canon, total, us, n - 1, key);
      PrefixMore(canon, us, n - 1, key);
      AmountJoined(canon, Rests(canon, total, us, n - 1), us[n - 1], Explained(canon, total, us, n - 1), key);
    }
  }

  lemma WorthSplits(u: Unexplained, part: int)
    requires u.amount > 0 && u.usd.Some?
    ensures Worth(u, part).value + Worth(u, u.amount - part).value == u.usd.value
    ensures Worth(u, 0).value == 0.0
  {
    var unit := u.usd.value / u.amount as real;
    assert unit * part as real + unit * (u.amount - part) as real == unit * u.amount as real;
  }

  /** What a row's rest leaves of its price: nothing when it is explained in full, else the rest's own, off by half a cent at most. */
  ghost predicate Leaves(rest: Unexplained, worth: real, price: real) {
    if rest.amount <= 0 || Price(rest).None? then worth == price
    else -0.005 <= Price(rest).value - (price - worth) <= 0.005 && WholeCents(Price(rest).value)
  }

  lemma RestLeaves(u: Unexplained, part: int)
    requires 0 <= part <= u.amount
    ensures Leaves(Rest(u, u.amount - part), Usd(Worth(u, part)), Usd(Price(u)))
  {
    if Price(u).Some? {
      WorthSplits(u, part);
      CentsAreWhole(Worth(u, u.amount - part).value);
    }
  }

  /** One more row: its worth joins that of the positions, and its rest the rests. */
  lemma {:induction false} DollarsJoined(rests: seq<Unexplained>, rest: Unexplained, worth: real, price: real, positions: real, priced: real)
    requires Leaves(rest, worth, price)
    requires Near(positions + PricedUsd(rests), priced, PricedRows(rests)) && WholeCents(PricedUsd(rests))
    ensures var joined := if rest.amount <= 0 then rests else rests + [rest];
      Near(positions + worth + PricedUsd(joined), priced + price, PricedRows(joined)) && WholeCents(PricedUsd(joined))
  {
    if rest.amount > 0 {
      PricedMore(rests, rest);
      if Price(rest).Some? {
        WholeCentsAdd(PricedUsd(rests), Price(rest).value);
        assert 0.005 * (PricedRows(rests) + 1) as real == 0.005 * PricedRows(rests) as real + 0.005;
      }
    }
  }

  /** Dollars are kept but for the rounding of each priced rest, and the rests come to a whole number of cents. */
  lemma {:induction false} DollarsKept(canon: Canon, total: Coin -> nat, us: seq<Unexplained>, n: nat)
    requires n <= |us| && Counted(us)
    ensures var rests := Rests(canon, total, us, n);
      && Near(PositionsUsd(canon, total, us, n) + PricedUsd(rests), PricedUsd(us[..n]), PricedRows(rests))
      && WholeCents(PricedUsd(rests))
  {
    if n > 0 {
      DollarsKept(canon, total, us, n - 1);
      var u := us[n - 1];
      assert us[..n] == us[..n - 1] + [u];
      PricedMore(us[..n - 1], u);
      var part := Explained(canon, total, us, n - 1);
      RestLeaves(u, part);
      DollarsJoined(Rests(canon, total, us, n - 1), Rest(u, u.amount - part), Usd(Worth(u, part)), Usd(Price(u)),
                    PositionsUsd(canon, total, us, n - 1), PricedUsd(us[..n - 1]));
    } else {
      assert WholeCents(0.0);
    }
  }

  /** Within half a cent times `halves`. */
  predicate Near(x: real, y: real, halves: nat) {
    -0.005 * halves as real <= x - y <= 0.005 * halves as real
  }

  // ----- The whole of it -----

  function TotalOf(canon: Canon, rows: seq<Moved>): Coin -> nat {
    (key: Coin) => Released(canon, rows, key)
  }

  ghost predicate NothingReleased(canon: Canon, rows: seq<Moved>) {
    forall key :: Released(canon, rows, key) == 0
  }

  /** The balances as row `i` finds them: never negative, and in all what was not yet handed out. */
  ghost predicate Balanced(canon: Canon, total: Coin -> nat, us: seq<Unexplained>, i: nat, balances: Balances)
    requires i <= |us|
  {
    forall key :: Balance(balances, key) == Left(canon, total, us, i, key)
  }

  lemma {:induction false} BalancedMore(canon: Canon, total: Coin -> nat, us: seq<Unexplained>, i: nat, balances: Balances, key: Coin)
    requires i < |us| && Counted(us) && Balanced(canon, total, us, i, balances) && key == canon(us[i].coin)
    ensures Min(us[i].amount, Balance(balances, key)) == Explained(canon, total, us, i)
    ensures Balanced(canon, total, us, i + 1, balances[key := Balance(balances, key) - Explained(canon, total, us, i)])
  {
    var after := balances[key := Balance(balances, key) - Explained(canon, total, us, i)];
    forall k ensures Balance(after, k) == Left(canon, total, us, i + 1, k) {
      assert Balance(balances, k) == Left(canon, total, us, i, k);
      PrefixMore(canon, us, i, k);
      ExplainsAllItCan(canon, total, us, i, k);
    }
  }

  /** What the first `i` rows came to. */
  ghost predicate Tallied(canon: Canon, total: Coin -> nat, us: seq<Unexplained>, i: nat, rests: seq<Unexplained>, positionsUsd: real, restsUsd: real, unpriced: nat)
    requires i <= |us| && Counted(us)
  {
    && rests == Rests(canon, total, us, i) && positionsUsd == PositionsUsd(canon, total, us, i)
    && restsUsd == PricedUsd(rests) && unpriced == Unpriced(rests)
  }

  lemma {:induction false} RowsMore(canon: Canon, total: Coin -> nat, us: seq<Unexplained>, i: nat)
    requires i < |us| && Counted(us)
    ensures Rests(canon, total, us, i + 1) == RestJoined(Rests(canon, total, us, i), us[i], Explained(canon, total, us, i))
    ensures PositionsUsd(canon, total, us, i + 1)
         == PositionsUsd(canon, total, us, i) + Usd(Worth(us[i], Explained(canon, total, us, i)))
  {
  }

  method ExplainRow(canon: Canon, ghost total: Coin -> nat, us: seq<Unexplained>, i: nat, released: Balances,
                    rests: seq<Unexplained>, positionsUsd: real, restsUsd: real, unpriced: nat)
    returns (released': Balances, rests': seq<Unexplained>, positionsUsd': real, restsUsd': real, unpriced': nat)
    requires i < |us| && Counted(us) && Balanced(canon, total, us, i, released)
    requires Tallied(canon, total, us, i, rests, positionsUsd, restsUsd, unpriced)
    ensures Balanced(canon, total, us, i + 1, released')
    ensures Tallied(canon, total, us, i + 1, rests', positionsUsd', restsUsd', unpriced')
  {
    released', rests', positionsUsd', restsUsd', unpriced' := released, rests, positionsUsd, restsUsd, unpriced;
    var amount := us[i].amount;
    var key := canon(us[i].coin);
    BalancedMore(canon, total, us, i, released, key);
    RowsMore(canon, total, us, i);
    var byPositions := if amount < Balance(released, key) then amount else Balance(released, key);
    released' := released[key := Balance(released, key) - byPositions];
    var rest := amount - byPositions;
    assert byPositions == Explained(canon, total, us, i);
    var unit := UnitPrice(us[i]);
    if unit.Some? {
      positionsUsd' := positionsUsd + Times(unit.value, byPositions);
    }
    assert positionsUsd' == PositionsUsd(canon, total, us, i + 1);
    if rest <= 0 {
      return;
    }
    var restUsd := if unit.None? then None else Some(Cents(Times(unit.value, rest)));
    if restUsd.None? {
      unpriced' := unpriced + 1;
    } else {
      restsUsd' := restsUsd + restUsd.value;
    }
    var row := Unexplained(us[i].coin, rest, restUsd);
    PricedMore(rests, row);
    rests' := rests + [row];
  }

  /**
   * The reconciliation with what the positions explain taken out: row by row
   * in order, each takes what it can of its coin's released balance.
   */
  method Explain(canon: Canon, r: Reconciliation, rows: seq<Moved>) returns (out: Reconciliation)
    requires Counted(r.unexplained)
    ensures r.unexplained == [] || NothingReleased(canon, rows) ==> out == r
    ensures var us, total := r.unexplained, TotalOf(canon, rows);
      us != [] && !NothingReleased(canon, rows) ==>
      out == Reconciliation(Rests(canon, total, us, |us|), PricedUsd(Rests(canon, total, us, |us|)),
                            Unpriced(Rests(canon, total, us, |us|)), Some(Cents(PositionsUsd(canon, total, us, |us|))))
  {
    var released := Release(canon, rows);
    var us := r.unexplained;
    assert NothingReleased(canon, rows) <==> released == map[] by {
      assert forall key :: key in released ==> Balance(released, key) > 0;
      if released != map[] {
        var key :| key in released;
        assert Released(canon, rows, key) > 0;
      }
    }
    if released == map[] || us == [] {
      return r;
    }
    ghost var total := TotalOf(canon, rows);
    var positionsUsd, unexplainedUsd, unpriced, unexplained := 0.0, 0.0, 0, [];
    for i := 0 to |us|
      invariant Balanced(canon, total, us, i, released)
      invariant Tallied(canon, total, us, i, unexplained, positionsUsd, unexplainedUsd, unpriced)
    {
      released, unexplained, positionsUsd, unexplainedUsd, unpriced :=
        ExplainRow(canon, total, us, i, released, unexplained, positionsUsd, unexplainedUsd, unpriced);
    }
    DollarsKept(canon, total, us, |us|);
    CentsOfWhole(unexplainedUsd);
    out := Reconciliation(unexplained, Cents(unexplainedUsd), unpriced, Some(Cents(positionsUsd)));
  }

  /**
   * What the two dollar figures come to: together the priced input, to within
   * half a cent for each priced rest and half a cent more.
   */
  lemma {:induction false} DollarsToTheCent(canon: Canon, total: Coin -> nat, us: seq<Unexplained>)
    requires Counted(us)
    ensures var rests := Rests(canon, total, us, |us|);
      Near(Cents(PositionsUsd(canon, total, us, |us|)) + PricedUsd(rests), PricedUsd(us), PricedRows(rests) + 1)
  {
    DollarsKept(canon, total, us, |us|);
    assert us[..|us|] == us;
  }

  lemma {:induction false} RestsAreTheShortfall(canon: Canon, total: Coin -> nat, us: seq<Unexplained>, n: nat, key: Coin)
    requires n <= |us| && Counted(us)
    ensures Positive(Rests(canon, total, us, n))
    ensures Amount(canon, Rests(canon, total, us, n), key) == Max(0, Amount(canon, us[..n], key) - total(key))
  {
    NothingLost(canon, total, us, n, key);
    ExplainsAllItCan(canon, total, us, n, key);
  }

  /** Coin by coin, the rests are what was unexplained less what the positions could cover of it. */
  lemma {:induction false} CoinsToTheUnit(canon: Canon, total: Coin -> nat, us: seq<Unexplained>, key: Coin)
    requires Counted(us)
    ensures Positive(Rests(canon, total, us, |us|))
    ensures Amount(canon, Rests(canon, total, us, |us|), key) == Max(0, Amount(canon, us, key) - total(key))
  {
    RestsAreTheShortfall(canon, total, us, |us|, key);
    assert us[..|us|] == us;
  }
}
