/**
 * Pages of the coverage rows of an incident: one offset runs across several
 * lists, and a page takes rows of each while they fit one budget of text. The
 * pages that the offsets lead to are followed to the end, and listing every
 * row once is shown to come down to a condition on each page.
 */
module Coverage {
  import opened Wrappers

  /** A row as the text it is sent as. */
  type Row = string


  function Size(row: Row): nat { |row| + 1 }

  function Min(a: nat, b: nat): nat { if a < b then a else b }
  function Less(a: nat, b: nat): nat { if a < b then 0 else a - b }

  /** Where taking rows stopped, and what all rows taken so far come to. */
  datatype Cut = Cut(end: nat, spent: nat)

  /** Takes rows from `start` while they fit the budget; the first row of a page is taken whatever its size. */
  function Take(rows: seq<Row>, start: nat, spent: nat, taken: nat, budget: nat): (c: Cut)
    requires start <= |rows|
    ensures start <= c.end <= |rows|
    ensures c.end < |rows| ==> c.spent + Size(rows[c.end]) > budget && taken + (c.end - start) > 0
    ensures c.end == start ==> c.spent == spent
    decreases |rows| - start
  {
    if start < |rows| && (spent + Size(rows[start]) <= budget || taken == 0)
    then Take(rows, start + 1, spent + Size(rows[start]), taken + 1, budget)
    else Cut(start, spent)
  }

  /** Where a page stands before a list: the rows still to skip, what was spent and how many rows were taken. */
  datatype Mark = Mark(offset: nat, spent: nat, taken: nat)

  function Start(rows: seq<Row>, m: Mark): (start: nat)
    ensures start <= |rows|
  {
    Min(|rows|, m.offset)
  }

  function CutOf(rows: seq<Row>, m: Mark, budget: nat): (c: Cut)
    ensures Start(rows, m) <= c.end <= |rows|
    ensures c.end < |rows| ==> c.spent + Size(rows[c.end]) > budget && m.taken + (c.end - Start(rows, m)) > 0
    ensures c.end == Start(rows, m) ==> c.spent == m.spent
  {
    Take(rows, Start(rows, m), m.spent, m.taken, budget)
  }

  function After(rows: seq<Row>, m: Mark, budget: nat): Mark {
    var c := CutOf(rows, m, budget);
    Mark(Less(m.offset, |rows|), c.spent, m.taken + (c.end - Start(rows, m)))
  }

  /** The rows of one list on a page. */
  datatype Slice = Slice(first: nat, end: nat)

  predicate SlicesOf(lists: seq<seq<Row>>, slices: seq<Slice>) {
    && |slices| == |lists|
    && forall i :: 0 <= i < |lists| ==> slices[i].first <= slices[i].end <= |lists[i]|
  }

  function Page(lists: seq<seq<Row>>, m: Mark, budget: nat): (slices: seq<Slice>)
    ensures SlicesOf(lists, slices)
  {
    if lists == [] then []
    else [Slice(Start(lists[0], m), CutOf(lists[0], m, budget).end)] + Page(lists[1..], After(lists[0], m, budget), budget)
  }

  function Flat(lists: seq<seq<Row>>): seq<Row> {
    if lists == [] then [] else lists[0] + Flat(lists[1..])
  }

  function Range(a: nat, b: nat): (r: seq<nat>)
    requires a <= b
    ensures |r| == b - a && forall i :: 0 <= i < |r| ==> r[i] == a + i
  {
    seq(b - a, i requires 0 <= i < b - a => a + i)
  }

  lemma {:induction false} RangeJoined(a: nat, b: nat, c: nat)
    requires a <= b <= c
    ensures Range(a, b) + Range(b, c) == Range(a, c)
  {
  }

  /** Where the rows of a page stand among all the rows, the lists' own first row being at `base`. */
  function Positions(lists: seq<seq<Row>>, m: Mark, budget: nat, base: nat): seq<nat> {
    if lists == [] then []
    else
      Range(base + Start(lists[0], m), base + CutOf(lists[0], m, budget).end)
      + Positions(lists[1..], After(lists[0], m, budget), budget, base + |lists[0]|)
  }

  /** No list begins with a row that fits. */
  predicate NoneFits(lists: seq<seq<Row>>, spent: nat, budget: nat) {
    forall i :: 0 <= i < |lists| && lists[i] != [] ==> spent + Size(lists[i][0]) > budget
  }

  /** Once a list is cut short, no later list begins with a row that would still fit. */
  predicate Quiet(lists: seq<seq<Row>>, m: Mark, budget: nat) {
    lists == []
    || if CutOf(lists[0], m, budget).end < |lists[0]| then NoneFits(lists[1..], CutOf(lists[0], m, budget).spent, budget)
       else Quiet(lists[1..], After(lists[0], m, budget), budget)
  }

  lemma {:induction false} TakeShift(a: seq<Row>, b: seq<Row>, start: nat, spent: nat, taken: nat, budget: nat)
    requires start <= |b|
    ensures var c := Take(b, start, spent, taken, budget);
      Take(a + b, |a| + start, spent, taken, budget) == Cut(|a| + c.end, c.spent)
    decreases |b| - start
  {
    if start < |b| {
      assert (a + b)[|a| + start] == b[start];
      TakeShift(a, b, start + 1, spent + Size(b[start]), taken + 1, budget);
    }
  }

  /** Taking that stops inside the first of two lists joined stops there just the same. */
  lemma {:induction false} TakeStops(a: seq<Row>, b: seq<Row>, start: nat, spent: nat, taken: nat, budget: nat)
    requires start <= |a| && Take(a, start, spent, taken, budget).end < |a|
    ensures Take(a + b, start, spent, taken, budget) == Take(a, start, spent, taken, budget)
    decreases |a| - start
  {
    assert (a + b)[start] == a[start];
    if spent + Size(a[start]) <= budget || taken == 0 {
      TakeStops(a, b, start + 1, spent + Size(a[start]), taken + 1, budget);
    }
  }

  /** Taking that uses up the first goes on into the second. */
  lemma {:induction false} TakeGoesOn(a: seq<Row>, b: seq<Row>, start: nat, spent: nat, taken: nat, budget: nat)
    requires start <= |a| && Take(a, start, spent, taken, budget).end == |a|
    ensures var d := Take(b, 0, Take(a, start, spent, taken, budget).spent, taken + (|a| - start), budget);
      Take(a + b, start, spent, taken, budget) == Cut(|a| + d.end, d.spent)
    decreases |a| - start
  {
    if start < |a| {
      assert (a + b)[start] == a[start];
      TakeGoesOn(a, b, start + 1, spent + Size(a[start]), taken + 1, budget);
    } else {
      TakeShift(a, b, 0, spent, taken, budget);
    }
  }

  /** The reference: one list of two parts is cut as its first part is cut, or as the second is when the first is used up. */
  lemma {:induction false} CutJoined(a: seq<Row>, b: seq<Row>, m: Mark, budget: nat)
    ensures CutOf(a, m, budget).end < |a| ==> CutOf(a + b, m, budget) == CutOf(a, m, budget)
    ensures CutOf(a, m, budget).end == |a| ==> CutOf(a + b, m, budget).end == |a| + CutOf(b, After(a, m, budget), budget).end
  {
    if m.offset < |a| {
      if CutOf(a, m, budget).end < |a| {
        TakeStops(a, b, m.offset, m.spent, m.taken, budget);
      } else {
        TakeGoesOn(a, b, m.offset, m.spent, m.taken, budget);
      }
    } else {
      TakeShift(a, b, Min(|b|, m.offset - |a|), m.spent, m.taken, budget);
    }
  }

  lemma {:induction false} NothingFits(lists: seq<seq<Row>>, m: Mark, budget: nat, base: nat)
    requires m.taken > 0 && m.offset == 0 && NoneFits(lists, m.spent, budget)
    ensures Positions(lists, m, budget, base) == []
  {
    if lists != [] {
      NoneFitsLater(lists, m.spent, budget);
      CutsNothing(lists[0], m, budget);
      NothingFits(lists[1..], m, budget, base + |lists[0]|);
    }
  }

  lemma {:induction false} CutsNothing(rows: seq<Row>, m: Mark, budget: nat)
    requires m.taken > 0 && m.offset == 0 && (rows != [] ==> m.spent + Size(rows[0]) > budget)
    ensures CutOf(rows, m, budget) == Cut(0, m.spent) && After(rows, m, budget) == m
  {
  }

  lemma {:induction false} NoneFitsLater(lists: seq<seq<Row>>, spent: nat, budget: nat)
    requires lists != [] && NoneFits(lists, spent, budget)
    ensures NoneFits(lists[1..], spent, budget)
  {
    assert forall i :: 0 <= i < |lists[1..]| ==> lists[1..][i] == lists[i + 1];
  }

  /** The page is one unbroken run of rows, as far as one list of them all would be taken. */
  predicate OneRun(lists: seq<seq<Row>>, m: Mark, budget: nat, base: nat) {
    Positions(lists, m, budget, base) == Range(base + Start(Flat(lists), m), base + CutOf(Flat(lists), m, budget).end)
  }

  /** A quiet page is one run. */
  lemma {:induction false} QuietRuns(lists: seq<seq<Row>>, m: Mark, budget: nat, base: nat)
    requires Quiet(lists, m, budget)
    ensures OneRun(lists, m, budget, base)
  {
    if lists == [] {
      NothingRuns(m, budget, base);
    } else if CutOf(lists[0], m, budget).end < |lists[0]| {
      RunStops(lists, m, budget, base);
    } else {
      QuietRuns(lists[1..], After(lists[0], m, budget), budget, base + |lists[0]|);
      RunsOn(lists, m, budget, base);
    }
  }

  lemma NothingRuns(m: Mark, budget: nat, base: nat)
    ensures OneRun([], m, budget, base)
  {
  }

  /** Cut short in the first list, a quiet page takes nothing more. */
  lemma {:induction false} RunStops(lists: seq<seq<Row>>, m: Mark, budget: nat, base: nat)
    requires lists != [] && CutOf(lists[0], m, budget).end < |lists[0]|
    requires NoneFits(lists[1..], CutOf(lists[0], m, budget).spent, budget)
    ensures OneRun(lists, m, budget, base)
  {
    var head := Range(base + Start(lists[0], m), base + CutOf(lists[0], m, budget).end);
    NothingFits(lists[1..], After(lists[0], m, budget), budget, base + |lists[0]|);
    assert Positions(lists, m, budget, base) == head + [] == head;
    CutJoined(lists[0], Flat(lists[1..]), m, budget);
  }

  /** A run to the end of the first list and one from the start of the others are one run. */
  lemma {:induction false} RunsOn(lists: seq<seq<Row>>, m: Mark, budget: nat, base: nat)
    requires lists != [] && CutOf(lists[0], m, budget).end == |lists[0]|
    requires OneRun(lists[1..], After(lists[0], m, budget), budget, base + |lists[0]|)
    ensures OneRun(lists, m, budget, base)
  {
    CutJoined(lists[0], Flat(lists[1..]), m, budget);
  }

  /** A page shows no row before its offset. */
  lemma {:induction false} FromTheOffset(lists: seq<seq<Row>>, m: Mark, budget: nat, base: nat)
    ensures forall p :: p in Positions(lists, m, budget, base) ==> base + m.offset <= p < base + |Flat(lists)|
  {
    if lists != [] {
      FromTheOffset(lists[1..], After(lists[0], m, budget), budget, base + |lists[0]|);
    }
  }

  lemma {:induction false} SomethingFits(lists: seq<seq<Row>>, m: Mark, budget: nat, base: nat)
    requires m.taken > 0 && m.offset == 0 && !NoneFits(lists, m.spent, budget)
    ensures Positions(lists, m, budget, base) != []
  {
    if NoneFits(lists[..1], m.spent, budget) {
      CutsNothing(lists[0], m, budget);
      SomeFitsLater(lists, m.spent, budget);
      SomethingFits(lists[1..], m, budget, base + |lists[0]|);
    } else {
      assert Take(lists[0], 0, m.spent, m.taken, budget).end > 0;
    }
  }

  lemma {:induction false} SomeFitsLater(lists: seq<seq<Row>>, spent: nat, budget: nat)
    requires lists != [] && !NoneFits(lists, spent, budget) && NoneFits(lists[..1], spent, budget)
    ensures !NoneFits(lists[1..], spent, budget)
  {
    var i :| 0 <= i < |lists| && lists[i] != [] && spent + Size(lists[i][0]) <= budget;
    assert i > 0 && lists[1..][i - 1] == lists[i];
  }

  /** The page leaves out row `k` of all the rows, and takes enough others to carry the next offset past it. */
  predicate PassesOver(lists: seq<seq<Row>>, m: Mark, budget: nat, base: nat, k: nat) {
    && k < |Flat(lists)|
    && base + k !in Positions(lists, m, budget, base)
    && Start(Flat(lists), m) + |Positions(lists, m, budget, base)| > k
  }

  /** Cut short in the first list, with a row of a later one that fits. */
  lemma {:induction false} CutSkips(lists: seq<seq<Row>>, m: Mark, budget: nat, base: nat)
    requires lists != [] && CutOf(lists[0], m, budget).end < |lists[0]| && !NoneFits(lists[1..], CutOf(lists[0], m, budget).spent, budget)
    ensures PassesOver(lists, m, budget, base, CutOf(lists[0], m, budget).end)
  {
    var after := After(lists[0], m, budget);
    var k := CutOf(lists[0], m, budget).end;
    SomethingFits(lists[1..], after, budget, base + |lists[0]|);
    FromTheOffset(lists[1..], after, budget, base + |lists[0]|);
    NotAmong(Range(base + Start(lists[0], m), base + k), Positions(lists[1..], after, budget, base + |lists[0]|), base + k);
  }

  /** What lies between two lists of positions is in neither. */
  lemma NotAmong(head: seq<nat>, tail: seq<nat>, at: nat)
    requires (forall i :: 0 <= i < |head| ==> head[i] < at) && forall p :: p in tail ==> p > at
    ensures at !in head + tail
  {
  }

  /** The first list used up, and a row of the others passed over. */
  lemma {:induction false} SkipsBehind(lists: seq<seq<Row>>, m: Mark, budget: nat, base: nat, k: nat)
    requires lists != [] && CutOf(lists[0], m, budget).end == |lists[0]|
    requires PassesOver(lists[1..], After(lists[0], m, budget), budget, base + |lists[0]|, k)
    ensures PassesOver(lists, m, budget, base, |lists[0]| + k)
  {
    var head := Range(base + Start(lists[0], m), base + |lists[0]|);
    assert forall p :: p in head ==> p < base + |lists[0]|;
  }

  /** A page that is not quiet passes over the row at its cut. */
  lemma {:induction false} LoudSkips(lists: seq<seq<Row>>, m: Mark, budget: nat, base: nat)
    requires !Quiet(lists, m, budget)
    ensures PassesOver(lists, m, budget, base, CutOf(Flat(lists), m, budget).end)
  {
    if CutOf(lists[0], m, budget).end < |lists[0]| {
      CutSkips(lists, m, budget, base);
      FlatCut(lists, m, budget);
    } else {
      LoudSkips(lists[1..], After(lists[0], m, budget), budget, base + |lists[0]|);
      SkipsBehind(lists, m, budget, base, CutOf(Flat(lists[1..]), After(lists[0], m, budget), budget).end);
      FlatCut(lists, m, budget);
    }
  }

  lemma {:induction false} FlatCut(lists: seq<seq<Row>>, m: Mark, budget: nat)
    requires lists != []
    ensures var cut := CutOf(lists[0], m, budget).end;
      CutOf(Flat(lists), m, budget).end
      == if cut < |lists[0]| then cut else |lists[0]| + CutOf(Flat(lists[1..]), After(lists[0], m, budget), budget).end
  {
    CutJoined(lists[0], Flat(lists[1..]), m, budget);
  }

  // ----- The pager -----

  function Begin(offset: nat): Mark { Mark(offset, 0, 0) }

  /** How many rows the slices hold. */
  function Taken(slices: seq<Slice>): int {
    if slices == [] then 0 else slices[0].end - slices[0].first + Taken(slices[1..])
  }

  lemma {:induction false} TakenIsShown(lists: seq<seq<Row>>, m: Mark, budget: nat, base: nat)
    ensures Taken(Page(lists, m, budget)) == |Positions(lists, m, budget, base)|
  {
    if lists != [] {
      TakenIsShown(lists[1..], After(lists[0], m, budget), budget, base + |lists[0]|);
    }
  }

  /** A page with rows left to show takes at least one. */
  lemma {:induction false} Progress(lists: seq<seq<Row>>, m: Mark, budget: nat, base: nat)
    requires m.taken == 0 && m.offset < |Flat(lists)|
    ensures |Positions(lists, m, budget, base)| > 0
  {
    if m.offset >= |lists[0]| {
      Progress(lists[1..], After(lists[0], m, budget), budget, base + |lists[0]|);
    } else {
      assert CutOf(lists[0], m, budget).end > m.offset;
    }
  }

  /** A page holds no more rows than there are from its offset on. */
  lemma {:induction false} NoMoreThanLeft(lists: seq<seq<Row>>, m: Mark, budget: nat, base: nat)
    ensures Start(Flat(lists), m) + |Positions(lists, m, budget, base)| <= |Flat(lists)|
  {
    if lists != [] {
      NoMoreThanLeft(lists[1..], After(lists[0], m, budget), budget, base + |lists[0]|);
    }
  }

  /** The rows of one list on the page: from `start`, as many as the budget leaves room for. */
  method TakeRows(rows: seq<Row>, start: nat, spent: nat, taken: nat, budget: nat) returns (end: nat, spent': nat, taken': nat)
    requires start <= |rows|
    ensures Take(rows, start, spent, taken, budget) == Cut(end, spent') && start <= end <= |rows| && taken' == taken + (end - start)
  {
    end, spent', taken' := start, spent, taken;
    while end < |rows|
      invariant start <= end <= |rows| && taken' == taken + (end - start)
      invariant Take(rows, end, spent', taken', budget) == Take(rows, start, spent, taken, budget)
    {
      var size := |rows[end]| + 1;
      if spent' + size > budget && taken' > 0 {
        break;
      }
      spent' := spent' + size;
      end := end + 1;
      taken' := taken' + 1;
    }
  }

  lemma {:induction false} TakenJoined(a: seq<Slice>, b: seq<Slice>)
    ensures Taken(a + b) == Taken(a) + Taken(b)
  {
    if a == [] {
      assert a + b == b;
    } else {
      assert (a + b)[0] == a[0] && (a + b)[1..] == a[1..] + b;
      TakenJoined(a[1..], b);
    }
  }

  /** Before list `i`: the slices so far are the page's first, `total` rows came before it and the mark is where the page stands. */
  ghost predicate Partway(lists: seq<seq<Row>>, i: nat, offset: nat, budget: nat, slices: seq<Slice>, total: nat, m: Mark)
    requires i <= |lists|
  {
    && slices + Page(lists[i..], m, budget) == Page(lists, Begin(offset), budget)
    && total + |Flat(lists[i..])| == |Flat(lists)|
    && m.offset == Less(offset, total) && m.taken == Taken(slices)
  }

  lemma {:induction false} SplitFirst(lists: seq<seq<Row>>, i: nat, m: Mark, budget: nat)
    requires i < |lists|
    ensures Page(lists[i..], m, budget)
         == [Slice(Start(lists[i], m), CutOf(lists[i], m, budget).end)] + Page(lists[i + 1..], After(lists[i], m, budget), budget)
    ensures |Flat(lists[i..])| == |lists[i]| + |Flat(lists[i + 1..])|
  {
    assert lists[i..][0] == lists[i] && lists[i..][1..] == lists[i + 1..];
  }

  lemma Regroup(a: seq<Slice>, x: Slice, b: seq<Slice>)
    ensures a + ([x] + b) == (a + [x]) + b
  {
  }

  lemma {:induction false} PartwayMore(lists: seq<seq<Row>>, i: nat, offset: nat, budget: nat, slices: seq<Slice>, total: nat, m: Mark, slice: Slice)
    requires i < |lists| && Partway(lists, i, offset, budget, slices, total, m)
    requires slice == Slice(Start(lists[i], m), CutOf(lists[i], m, budget).end)
    ensures Partway(lists, i + 1, offset, budget, slices + [slice], total + |lists[i]|, After(lists[i], m, budget))
  {
    SplitFirst(lists, i, m, budget);
    Regroup(slices, slice, Page(lists[i + 1..], After(lists[i], m, budget), budget));
    TakenJoined(slices, [slice]);
    assert Taken([slice]) == slice.end - slice.first;
  }

  lemma {:induction false} PartwayBegins(lists: seq<seq<Row>>, offset: nat, budget: nat)
    ensures Partway(lists, 0, offset, budget, [], 0, Begin(offset))
  {
    assert lists[0..] == lists;
  }

  lemma {:induction false} PartwayEnds(lists: seq<seq<Row>>, offset: nat, budget: nat, slices: seq<Slice>, total: nat, m: Mark)
    requires Partway(lists, |lists|, offset, budget, slices, total, m)
    ensures slices == Page(lists, Begin(offset), budget) && total == |Flat(lists)| && m.taken == |Shown(lists, budget)(offset)|
  {
    assert lists[|lists|..] == [];
    TakenIsShown(lists, Begin(offset), budget, 0);
  }

  /** What a page says of a list it does not show in full: how many rows it leaves out, and the first of them. */
  datatype Omission = Omission(count: nat, from: nat, first: Row)

  predicate OnPage(slice: Slice, k: nat) {
    slice.first <= k < slice.end
  }

  /** Nothing is said of a list shown in full; of another, its first row outside the slice and the number of such rows. */
  predicate Reports(rows: seq<Row>, slice: Slice, omission: Option<Omission>) {
    match omission
    case None => forall k :: 0 <= k < |rows| ==> OnPage(slice, k)
    case Some(o) =>
      && o.from < |rows| && o.first == rows[o.from] && !OnPage(slice, o.from)
      && (forall k :: 0 <= k < o.from ==> OnPage(slice, k))
      && o.count == |rows| - (slice.end - slice.first)
  }

  /** The reports of the first `i` lists: the positions shown, and what is left out. */
  ghost predicate Reported(lists: seq<seq<Row>>, i: nat, slices: seq<Slice>, shown: seq<seq<nat>>, omitted: seq<Option<Omission>>) {
    && i <= |lists| && |slices| == |shown| == |omitted| == i
    && forall k :: 0 <= k < i ==>
         && slices[k].first <= slices[k].end <= |lists[k]|
         && shown[k] == Range(slices[k].first, slices[k].end)
         && Reports(lists[k], slices[k], omitted[k])
  }

  lemma ReportedMore(lists: seq<seq<Row>>, i: nat, slices: seq<Slice>, shown: seq<seq<nat>>, omitted: seq<Option<Omission>>,
                     slice: Slice, omission: Option<Omission>)
    requires Reported(lists, i, slices, shown, omitted) && i < |lists|
    requires slice.first <= slice.end <= |lists[i]| && Reports(lists[i], slice, omission)
    ensures Reported(lists, i + 1, slices + [slice], shown + [Range(slice.first, slice.end)], omitted + [omission])
  {
  }

  /** The report of one list. */
  method ReportList(rows: seq<Row>, slice: Slice) returns (shown: seq<nat>, omission: Option<Omission>)
    requires slice.first <= slice.end <= |rows|
    ensures shown == Range(slice.first, slice.end) && Reports(rows, slice, omission)
  {
    shown := Range(slice.first, slice.end);
    omission := None;
    if slice.end - slice.first < |rows| {
      var first := if slice.first > 0 then 0 else slice.end;
      omission := Some(Omission(|rows| - (slice.end - slice.first), first, rows[first]));
    }
  }

  /** One list's part of the page. */
  method PageList(lists: seq<seq<Row>>, i: nat, offset: nat, budget: nat, slices: seq<Slice>, shown: seq<seq<nat>>, omitted: seq<Option<Omission>>,
                  total: nat, spent: nat, taken: nat)
    returns (slices': seq<Slice>, shown': seq<seq<nat>>, omitted': seq<Option<Omission>>, spent': nat, taken': nat)
    requires Reported(lists, i, slices, shown, omitted)
    requires i < |lists| && Partway(lists, i, offset, budget, slices, total, Mark(Less(offset, total), spent, taken))
    ensures var total' := total + |lists[i]|;
      Partway(lists, i + 1, offset, budget, slices', total', Mark(Less(offset, total'), spent', taken'))
    ensures Reported(lists, i + 1, slices', shown', omitted')
  {
    var rows := lists[i];
    var start := Min(|rows|, Less(offset, total));
    var end;
    end, spent', taken' := TakeRows(rows, start, spent, taken, budget);
    var own, omission := ReportList(rows, Slice(start, end));
    ReportedMore(lists, i, slices, shown, omitted, Slice(start, end), omission);
    slices', shown', omitted' := slices + [Slice(start, end)], shown + [own], omitted + [omission];
    PartwayMore(lists, i, offset, budget, slices, total, Mark(Less(offset, total), spent, taken), Slice(start, end));
    assert After(rows, Mark(Less(offset, total), spent, taken), budget) == Mark(Less(offset, total + |rows|), spent', taken');
  }

  /**
   * One page: the slice it shows of each list, with the positions shown and
   * what is left out, the offset of the next page unless this one ends the
   * rows, and how many rows there are.
   */
  method PageCoverage(lists: seq<seq<Row>>, offset: nat, budget: nat)
    returns (slices: seq<Slice>, shown: seq<seq<nat>>, omitted: seq<Option<Omission>>, next: Option<nat>, total: nat)
    ensures slices == Page(lists, Begin(offset), budget) && total == |Flat(lists)|
    ensures Reported(lists, |lists|, slices, shown, omitted)
    ensures next == NextOffset(total, Shown(lists, budget), offset)
  {
    slices, shown, omitted, total := [], [], [], 0;
    var spent, taken := 0, 0;
    PartwayBegins(lists, offset, budget);
    for i := 0 to |lists|
      invariant Partway(lists, i, offset, budget, slices, total, Mark(Less(offset, total), spent, taken))
      invariant Reported(lists, i, slices, shown, omitted)
    {
      slices, shown, omitted, spent, taken := PageList(lists, i, offset, budget, slices, shown, omitted, total, spent, taken);
      total := total + |lists[i]|;
    }
    PartwayEnds(lists, offset, budget, slices, total, Mark(Less(offset, total), spent, taken));
    assert NextOffset(total, Shown(lists, budget), offset) == if offset + taken < total then Some(offset + taken) else None;
    next := if offset + taken < total then Some(offset + taken) else None;
  }

  // ----- Following the offsets -----

  /** For each offset, where the rows of its page stand. */
  type Pager = nat -> seq<nat>

  function Shown(lists: seq<seq<Row>>, budget: nat): Pager {
    (offset: nat) => Positions(lists, Begin(offset), budget, 0)
  }

  function NextOffset(total: nat, shown: Pager, offset: nat): Option<nat> {
    if offset + |shown(offset)| < total then Some(offset + |shown(offset)|) else None
  }

  /** Each page with rows left to show takes at least one. */
  ghost predicate Advances(total: nat, shown: Pager) {
    forall offset :: 0 <= offset < total ==> |shown(offset)| > 0
  }

  /** Where the rows of all pages stand, following the offsets from `offset` until there is none. */
  ghost function Followed(total: nat, shown: Pager, offset: nat): seq<nat>
    requires Advances(total, shown)
    decreases Less(total, offset)
  {
    if offset >= total then []
    else
      var next := NextOffset(total, shown, offset);
      shown(offset) + if next.None? then [] else Followed(total, shown, next.value)
  }

  /** Every page on the way is quiet. */
  ghost predicate AllQuiet(total: nat, shown: Pager, quiet: nat -> bool, offset: nat)
    requires Advances(total, shown)
    decreases Less(total, offset)
  {
    offset >= total
    || (quiet(offset)
        && var next := NextOffset(total, shown, offset);
           next.None? || AllQuiet(total, shown, quiet, next.value))
  }

  /** No page shows a row before its offset. */
  ghost predicate NotBefore(total: nat, shown: Pager) {
    forall o, p :: 0 <= o < total && p in shown(o) ==> o <= p
  }

  /** A quiet page shows an unbroken run of rows from its offset; any other leaves out a row before the next offset. */
  ghost predicate Told(total: nat, shown: Pager, quiet: nat -> bool) {
    && Advances(total, shown)
    && NotBefore(total, shown)
    && (forall o :: 0 <= o < total ==> o + |shown(o)| <= total)
    && (forall o :: 0 <= o < total && quiet(o) ==> shown(o) == Range(o, o + |shown(o)|))
    && (forall o :: 0 <= o < total && !quiet(o) ==> Missed(o, shown(o)))
  }

  ghost predicate Missed(o: nat, page: seq<nat>) {
    exists k: nat :: o <= k < o + |page| && k !in page
  }

  lemma {:induction false} FollowedFrom(total: nat, shown: Pager, offset: nat)
    requires Advances(total, shown) && NotBefore(total, shown)
    ensures forall p :: p in Followed(total, shown, offset) ==> offset <= p
    decreases Less(total, offset)
  {
    if offset < total && NextOffset(total, shown, offset).Some? {
      FollowedFrom(total, shown, offset + |shown(offset)|);
    }
  }

  /** If every page on the way is quiet, the pages list every row exactly once, in order. */
  lemma {:induction false} QuietListsAll(total: nat, shown: Pager, quiet: nat -> bool, offset: nat)
    requires Told(total, shown, quiet) && offset <= total && AllQuiet(total, shown, quiet, offset)
    ensures Followed(total, shown, offset) == Range(offset, total)
    decreases Less(total, offset)
  {
    if offset < total {
      var next := offset + |shown(offset)|;
      assert shown(offset) == Range(offset, next);
      if next < total {
        QuietListsAll(total, shown, quiet, next);
        RangeJoined(offset, next, total);
      }
    }
  }

  /** Otherwise some row is on no page. */
  lemma {:induction false} LoudLosesARow(total: nat, shown: Pager, quiet: nat -> bool, offset: nat) returns (p: nat)
    requires Told(total, shown, quiet) && offset <= total && !AllQuiet(total, shown, quiet, offset)
    ensures offset <= p < total && p !in Followed(total, shown, offset)
    decreases Less(total, offset)
  {
    var next := offset + |shown(offset)|;
    if quiet(offset) {
      p := LoudLosesARow(total, shown, quiet, next);
      assert p !in shown(offset);
    } else {
      assert Missed(offset, shown(offset));
      p :| offset <= p < next && p !in shown(offset);
      NotLater(total, shown, offset, p);
    }
  }

  lemma {:induction false} NotLater(total: nat, shown: Pager, offset: nat, p: nat)
    requires Advances(total, shown) && NotBefore(total, shown) && offset < total
    requires p < offset + |shown(offset)| && p !in shown(offset)
    ensures p !in Followed(total, shown, offset)
  {
    FollowedFrom(total, shown, offset + |shown(offset)|);
  }

  function QuietAt(lists: seq<seq<Row>>, budget: nat): nat -> bool {
    (offset: nat) => Quiet(lists, Begin(offset), budget)
  }

  lemma {:induction false} PageTold(lists: seq<seq<Row>>, budget: nat, o: nat)
    requires o < |Flat(lists)|
    ensures var page := Positions(lists, Begin(o), budget, 0);
      && page != [] && o + |page| <= |Flat(lists)|
      && (forall p :: p in page ==> o <= p)
      && (Quiet(lists, Begin(o), budget) ==> page == Range(o, o + |page|))
      && (!Quiet(lists, Begin(o), budget) ==> Missed(o, page))
  {
    Progress(lists, Begin(o), budget, 0);
    NoMoreThanLeft(lists, Begin(o), budget, 0);
    FromTheOffset(lists, Begin(o), budget, 0);
    if Quiet(lists, Begin(o), budget) {
      QuietRuns(lists, Begin(o), budget, 0);
    } else {
      LoudSkips(lists, Begin(o), budget, 0);
    }
  }

  lemma {:induction false} CoverageTold(lists: seq<seq<Row>>, budget: nat)
    ensures Told(|Flat(lists)|, Shown(lists, budget), QuietAt(lists, budget))
  {
    forall o | 0 <= o < |Flat(lists)|
      ensures var page := Shown(lists, budget)(o);
        && page != [] && o + |page| <= |Flat(lists)|
        && (forall p :: p in page ==> o <= p)
        && (QuietAt(lists, budget)(o) ==> page == Range(o, o + |page|))
        && (!QuietAt(lists, budget)(o) ==> Missed(o, page))
    {
      PageTold(lists, budget, o);
    }
  }

  /** The pages list every row exactly once and in order if and only if every page on the way is quiet; otherwise some row is on none. */
  lemma {:induction false} EveryRowOnce(lists: seq<seq<Row>>, budget: nat)
    ensures Advances(|Flat(lists)|, Shown(lists, budget))
    ensures var total, shown := |Flat(lists)|, Shown(lists, budget);
      && (AllQuiet(total, shown, QuietAt(lists, budget), 0) <==> Followed(total, shown, 0) == Range(0, total))
      && (AllQuiet(total, shown, QuietAt(lists, budget), 0) <==> forall p :: 0 <= p < total ==> p in Followed(total, shown, 0))
  {
    var total, shown, quiet := |Flat(lists)|, Shown(lists, budget), QuietAt(lists, budget);
    CoverageTold(lists, budget);
    forall p | 0 <= p < total ensures p in Range(0, total) {
      assert Range(0, total)[p] == p;
    }
    if AllQuiet(total, shown, quiet, 0) {
      QuietListsAll(total, shown, quiet, 0);
    } else {
      var p := LoudLosesARow(total, shown, quiet, 0);
    }
  }

  // ----- When pages are quiet -----

  /** Along all the rows, no row is smaller than one before it. */
  predicate NeverSmaller(rows: seq<Row>) {
    forall i, j :: 0 <= i < j < |rows| ==> Size(rows[i]) <= Size(rows[j])
  }

  lemma {:induction false} FirstOfLists(lists: seq<seq<Row>>, i: nat)
    requires i < |lists| && lists[i] != []
    ensures lists[i][0] in Flat(lists)
  {
    if i > 0 {
      assert lists[1..][i - 1] == lists[i];
      FirstOfLists(lists[1..], i - 1);
    }
  }

  lemma {:induction false} LaterFitsNoBetter(lists: seq<seq<Row>>, m: Mark, budget: nat)
    requires lists != [] && NeverSmaller(Flat(lists)) && CutOf(lists[0], m, budget).end < |lists[0]|
    ensures NoneFits(lists[1..], CutOf(lists[0], m, budget).spent, budget)
  {
    var k := CutOf(lists[0], m, budget).end;
    forall i | 0 <= i < |lists[1..]| && lists[1..][i] != [] ensures Size(lists[0][k]) <= Size(lists[1..][i][0]) {
      FirstOfLists(lists[1..], i);
      var j :| 0 <= j < |Flat(lists[1..])| && Flat(lists[1..])[j] == lists[1..][i][0];
      assert Flat(lists)[k] == lists[0][k] && Flat(lists)[|lists[0]| + j] == Flat(lists[1..])[j];
    }
  }

  lemma {:induction false} NeverSmallerIsQuiet(lists: seq<seq<Row>>, m: Mark, budget: nat)
    requires NeverSmaller(Flat(lists))
    ensures Quiet(lists, m, budget)
  {
    if lists != [] {
      if CutOf(lists[0], m, budget).end < |lists[0]| {
        LaterFitsNoBetter(lists, m, budget);
      } else {
        NeverSmallerLater(lists);
        NeverSmallerIsQuiet(lists[1..], After(lists[0], m, budget), budget);
      }
    }
  }

  lemma {:induction false} NeverSmallerLater(lists: seq<seq<Row>>)
    requires lists != [] && NeverSmaller(Flat(lists))
    ensures NeverSmaller(Flat(lists[1..]))
  {
    var n := |lists[0]|;
    assert forall i :: 0 <= i < |Flat(lists[1..])| ==> Flat(lists[1..])[i] == Flat(lists)[n + i];
  }

  lemma {:induction false} EveryPageQuiet(total: nat, shown: Pager, quiet: nat -> bool, offset: nat)
    requires Advances(total, shown) && forall o: nat :: quiet(o)
    ensures AllQuiet(total, shown, quiet, offset)
    decreases Less(total, offset)
  {
    if offset < total && NextOffset(total, shown, offset).Some? {
      EveryPageQuiet(total, shown, quiet, offset + |shown(offset)|);
    }
  }

  /** When row sizes never fall along the lists, for example all rows one size, the pages list every row once and in order. */
  lemma {:induction false} UniformRowsListed(lists: seq<seq<Row>>, budget: nat)
    requires NeverSmaller(Flat(lists))
    ensures Advances(|Flat(lists)|, Shown(lists, budget))
    ensures Followed(|Flat(lists)|, Shown(lists, budget), 0) == Range(0, |Flat(lists)|)
  {
    EveryRowOnce(lists, budget);
    forall o: nat ensures QuietAt(lists, budget)(o) {
      NeverSmallerIsQuiet(lists, Begin(o), budget);
    }
    EveryPageQuiet(|Flat(lists)|, Shown(lists, budget), QuietAt(lists, budget), 0);
  }

  const FULL_COVERAGE_BUDGET := 60_000

  /** Two rows in the first of the four lists, one in the second. */
  function ThreeRows(a: Row, b: Row, c: Row): seq<seq<Row>> {
    [[a, b], [c], [], []]
  }

  /** The first page shows the first and the third row when the second no longer fits and the third still does. */
  lemma RowPassedOver(a: Row, b: Row, c: Row, budget: nat)
    requires Size(a) + Size(b) > budget && Size(a) + Size(c) <= budget
    ensures Flat(ThreeRows(a, b, c)) == [a, b, c] && Shown(ThreeRows(a, b, c), budget)(0) == [0, 2]
  {
    var lists := ThreeRows(a, b, c);
    var later := lists[1..];
    assert later == [[c], [], []];
    LaterRow(later, c, Mark(0, Size(a), 1), budget);
    TakeTwo(a, b, budget);
    assert After(lists[0], Begin(0), budget) == Mark(0, Size(a), 1);
    assert Positions(lists, Begin(0), budget, 0) == Range(0, 1) + [2];
    assert Flat(lists) == [a, b] + [c];
  }

  /** The only row of the later lists, after one row of the first. */
  lemma LaterRow(later: seq<seq<Row>>, c: Row, m: Mark, budget: nat)
    requires later != [] && later[0] == [c] && forall i :: 1 <= i < |later| ==> later[i] == []
    requires m.offset == 0 && m.spent + Size(c) <= budget
    ensures Flat(later) == [c] && Positions(later, m, budget, 2) == [2]
  {
    TakeOnly(c, m, budget);
    NoRows(later[1..], After(later[0], m, budget), budget, 3);
    assert Start(later[0], m) == 0 && CutOf(later[0], m, budget).end == 1;
    assert Flat(later) == [c] + [];
    assert Positions(later, m, budget, 2) == Range(2, 3) + [];
  }

  lemma TakeOnly(c: Row, m: Mark, budget: nat)
    requires m.offset == 0 && m.spent + Size(c) <= budget
    ensures CutOf([c], m, budget).end == 1
  {
    assert Take([c], 1, m.spent + Size(c), m.taken + 1, budget).end == 1;
  }

  lemma {:induction false} NoRows(lists: seq<seq<Row>>, m: Mark, budget: nat, base: nat)
    requires forall i :: 0 <= i < |lists| ==> lists[i] == []
    ensures Flat(lists) == [] && Positions(lists, m, budget, base) == []
  {
    if lists != [] {
      NoRows(lists[1..], After(lists[0], m, budget), budget, base);
    }
  }

  lemma TakeTwo(a: Row, b: Row, budget: nat)
    requires Size(a) + Size(b) > budget
    ensures Take([a, b], 0, 0, 0, budget) == Cut(1, Size(a))
  {
    assert Take([a, b], 1, Size(a), 1, budget) == Cut(1, Size(a));
  }

  /** A row cut from the first list while one of the second still fits is on no page. */
  lemma ARowIsLost(a: Row, b: Row, c: Row, budget: nat)
    requires Size(a) + Size(b) > budget && Size(a) + Size(c) <= budget
    ensures Advances(3, Shown(ThreeRows(a, b, c), budget)) && Flat(ThreeRows(a, b, c)) == [a, b, c]
    ensures 1 !in Followed(3, Shown(ThreeRows(a, b, c), budget), 0)
  {
    RowPassedOver(a, b, c, budget);
    LostBehind(ThreeRows(a, b, c), budget);
  }

  lemma {:induction false} LostBehind(lists: seq<seq<Row>>, budget: nat)
    requires |Flat(lists)| > 1 && 1 !in Shown(lists, budget)(0) && |Shown(lists, budget)(0)| > 1
    ensures Advances(|Flat(lists)|, Shown(lists, budget))
    ensures 1 !in Followed(|Flat(lists)|, Shown(lists, budget), 0)
  {
    CoverageTold(lists, budget);
    FollowedFrom(|Flat(lists)|, Shown(lists, budget), |Shown(lists, budget)(0)|);
  }

  /** The text of `{ "note": … }` with a note of `n` letters. */
  function Noted(n: nat): Row {
    "{\"note\":\"" + seq(n, _ => 'x') + "\"}"
  }

  /** It happens under the budget in use, for example to a long note between two shorter ones. */
  lemma ALongNoteIsLost()
    ensures var rows := ThreeRows(Noted(59_000), Noted(2_000), Noted(100));
      Advances(3, Shown(rows, FULL_COVERAGE_BUDGET)) && 1 !in Followed(3, Shown(rows, FULL_COVERAGE_BUDGET), 0)
  {
    ARowIsLost(Noted(59_000), Noted(2_000), Noted(100), FULL_COVERAGE_BUDGET);
  }
}
