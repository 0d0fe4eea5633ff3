/**
 * Edit distance between argument names, and the "did you mean" choice built on
 * it. The two-row loop is proved against the recursive distance, which is the
 * length of a shortest script of edits and a metric; the choice is proved to
 * take the first of the nearest names, unless a name shares a part.
 */
module EditDistance {
  import opened Wrappers

  function Min(x: nat, y: nat): nat {
    if x <= y then x else y
  }

  function Init<T>(s: seq<T>): seq<T>
    requires s != []
  {
    s[..|s| - 1]
  }

  function Last<T>(s: seq<T>): T
    requires s != []
  {
    s[|s| - 1]
  }

  /** 0 when both sequences end alike, else 1: the price of the diagonal step. */
  function Mismatch<T(==)>(a: seq<T>, b: seq<T>): nat
    requires a != [] && b != []
  {
    if Last(a) == Last(b) then 0 else 1
  }

  /** Levenshtein's recurrence, peeling both words from the end. */
  function Distance<T(==)>(a: seq<T>, b: seq<T>): nat
    decreases |a| + |b|
  {
    if a == [] then |b|
    else if b == [] then |a|
    else Min(Distance(Init(a), b) + 1, Min(Distance(a, Init(b)) + 1, Distance(Init(a), Init(b)) + Mismatch(a, b)))
  }

  // ---------------------------------------------------------------------------
  // The two-row loop
  // ---------------------------------------------------------------------------

  /** Cell `(i, j)` of the table: the distance between the first `i` and the first `j` elements. */
  ghost function Cell<T>(a: seq<T>, b: seq<T>, i: nat, j: nat): nat
    requires i <= |a| && j <= |b|
  {
    if i == 0 then j
    else if j == 0 then i
    else Min(Cell(a, b, i - 1, j) + 1,
             Min(Cell(a, b, i, j - 1) + 1,
                 Cell(a, b, i - 1, j - 1) + if a[i - 1] == b[j - 1] then 0 else 1))
  }

  lemma {:induction false} LastOfPrefix<T>(s: seq<T>, n: nat)
    requires 0 < n <= |s|
    ensures s[..n] != [] && Init(s[..n]) == s[..n - 1] && s[..n][|s[..n]| - 1] == s[n - 1]
  {
  }

  lemma {:induction false} CellIsDistance<T>(a: seq<T>, b: seq<T>, i: nat, j: nat)
    requires i <= |a| && j <= |b|
    ensures Cell(a, b, i, j) == Distance(a[..i], b[..j])
  {
    if i > 0 && j > 0 {
      LastOfPrefix(a, i);
      LastOfPrefix(b, j);
      CellIsDistance(a, b, i - 1, j);
      CellIsDistance(a, b, i, j - 1);
      CellIsDistance(a, b, i - 1, j - 1);
    }
  }

  /** `row` holds the first cells of row `i` of the table. */
  ghost predicate RowOf<T>(row: seq<nat>, a: seq<T>, b: seq<T>, i: nat)
  {
    i <= |a| && |row| <= |b| + 1 && forall j :: 0 <= j < |row| ==> row[j] == Cell(a, b, i, j)
  }

  /** The inner loop: row `i` of the table from row `i - 1`. */
  method NextRow<T(==)>(prev: seq<nat>, a: seq<T>, b: seq<T>, i: nat) returns (row: seq<nat>)
    requires 1 <= i <= |a| && |prev| == |b| + 1 && RowOf(prev, a, b, i - 1)
    ensures |row| == |b| + 1 && RowOf(row, a, b, i)
  {
    row := [i];
    for j := 1 to |b| + 1
      invariant |row| == j && RowOf(row, a, b, i)
    {
      row := row + [Min(prev[j] + 1, Min(row[j - 1] + 1, prev[j - 1] + if a[i - 1] == b[j - 1] then 0 else 1))];
    }
  }

  /** Two rows are enough: each is replaced by the next. */
  method EditDistanceOf<T(==)>(a: seq<T>, b: seq<T>) returns (d: nat)
    ensures d == Distance(a, b)
  {
    var prev: seq<nat> := seq(|b| + 1, (j: nat) => j);
    for i := 1 to |a| + 1
      invariant |prev| == |b| + 1 && RowOf(prev, a, b, i - 1)
    {
      prev := NextRow(prev, a, b, i);
    }
    d := prev[|b|];
    CellIsDistance(a, b, |a|, |b|);
    assert a[..|a|] == a && b[..|b|] == b;
  }

  // ---------------------------------------------------------------------------
  // The distance is a metric
  // ---------------------------------------------------------------------------

  lemma {:induction false} ZeroIffEqual<T>(a: seq<T>, b: seq<T>)
    ensures Distance(a, b) == 0 <==> a == b
    decreases |a| + |b|
  {
    if a != [] && b != [] {
      ZeroIffEqual(Init(a), Init(b));
      assert a == Init(a) + [Last(a)] && b == Init(b) + [Last(b)];
    }
  }

  lemma {:induction false} Symmetric<T>(a: seq<T>, b: seq<T>)
    ensures Distance(a, b) == Distance(b, a)
    decreases |a| + |b|
  {
    if a != [] && b != [] {
      Symmetric(Init(a), b);
      Symmetric(a, Init(b));
      Symmetric(Init(a), Init(b));
    }
  }

  /** The length difference is a lower bound, and the longer length an upper one. */
  lemma {:induction false} LengthBounds<T>(a: seq<T>, b: seq<T>)
    ensures |a| <= |b| + Distance(a, b) && |b| <= |a| + Distance(a, b)
    ensures Distance(a, b) <= if |a| <= |b| then |b| else |a|
    decreases |a| + |b|
  {
    if a != [] && b != [] {
      LengthBounds(Init(a), b);
      LengthBounds(a, Init(b));
      LengthBounds(Init(a), Init(b));
    }
  }

  lemma {:induction false} Triangle<T>(a: seq<T>, b: seq<T>, c: seq<T>)
    ensures Distance(a, c) <= Distance(a, b) + Distance(b, c)
    decreases |a| + |b| + |c|
  {
    if a == [] || c == [] || b == [] {
      LengthBounds(a, b);
      LengthBounds(b, c);
      LengthBounds(a, c);
    } else if Distance(a, b) == Distance(Init(a), b) + 1 {
      Triangle(Init(a), b, c);
    } else if Distance(b, c) == Distance(b, Init(c)) + 1 {
      Triangle(a, b, Init(c));
    } else if Distance(a, b) == Distance(a, Init(b)) + 1 {
      if Distance(b, c) == Distance(Init(b), c) + 1 {
        Triangle(a, Init(b), c);
      } else {
        Triangle(a, Init(b), Init(c));
      }
    } else if Distance(b, c) == Distance(Init(b), c) + 1 {
      Triangle(Init(a), Init(b), c);
    } else {
      Triangle(Init(a), Init(b), Init(c));
    }
  }

  // ---------------------------------------------------------------------------
  // What the distance means: the fewest single-element edits
  // ---------------------------------------------------------------------------

  datatype Edit<T> = Insert(at: nat, item: T) | Delete(at: nat) | Replace(at: nat, item: T)

  predicate Applies<T>(e: Edit<T>, s: seq<T>) {
    if e.Insert? then e.at <= |s| else e.at < |s|
  }

  function Apply<T>(e: Edit<T>, s: seq<T>): seq<T>
    requires Applies(e, s)
  {
    match e
    case Insert(at, item) => s[..at] + [item] + s[at..]
    case Delete(at) => s[..at] + s[at + 1..]
    case Replace(at, item) => s[..at] + [item] + s[at + 1..]
  }

  /** `script` runs on `a`, one edit after another, and leaves `b`. */
  ghost predicate Turns<T>(script: seq<Edit<T>>, a: seq<T>, b: seq<T>)
    decreases |script|
  {
    if script == [] then a == b
    else Applies(script[0], a) && Turns(script[1..], Apply(script[0], a), b)
  }

  lemma {:induction false} CommonSuffix<T>(a: seq<T>, b: seq<T>, s: seq<T>)
    ensures Distance(a + s, b + s) <= Distance(a, b)
    decreases |s|
  {
    if s == [] {
      assert a + s == a && b + s == b;
    } else {
      CommonSuffix(a, b, Init(s));
      assert Init(a + s) == a + Init(s) && Init(b + s) == b + Init(s);
    }
  }

  lemma OneMore<T>(p: seq<T>, x: T)
    ensures Distance(p, p + [x]) <= 1
  {
    ZeroIffEqual(p, p);
    assert Init(p + [x]) == p;
  }

  lemma OneOther<T>(p: seq<T>, x: T, y: T)
    ensures Distance(p + [x], p + [y]) <= 1
  {
    ZeroIffEqual(p, p);
    assert Init(p + [x]) == p && Init(p + [y]) == p;
  }

  /** A word cut at an element, and at a gap. */
  lemma CutAt<T>(s: seq<T>, at: nat)
    requires at <= |s|
    ensures s[..at] + s[at..] == s
    ensures at < |s| ==> s[..at] + [s[at]] + s[at + 1..] == s
  {
  }

  lemma OneInsert<T>(s: seq<T>, at: nat, item: T)
    requires at <= |s|
    ensures Distance(s, s[..at] + [item] + s[at..]) <= 1
  {
    CutAt(s, at);
    OneMore(s[..at], item);
    CommonSuffix(s[..at], s[..at] + [item], s[at..]);
  }

  lemma OneDelete<T>(s: seq<T>, at: nat)
    requires at < |s|
    ensures Distance(s, s[..at] + s[at + 1..]) <= 1
  {
    CutAt(s, at);
    OneMore(s[..at], s[at]);
    Symmetric(s[..at], s[..at] + [s[at]]);
    CommonSuffix(s[..at] + [s[at]], s[..at], s[at + 1..]);
  }

  lemma OneReplace<T>(s: seq<T>, at: nat, item: T)
    requires at < |s|
    ensures Distance(s, s[..at] + [item] + s[at + 1..]) <= 1
  {
    CutAt(s, at);
    OneOther(s[..at], s[at], item);
    CommonSuffix(s[..at] + [s[at]], s[..at] + [item], s[at + 1..]);
  }

  lemma OneEdit<T>(e: Edit<T>, s: seq<T>)
    requires Applies(e, s)
    ensures Distance(s, Apply(e, s)) <= 1
  {
    match e
    case Insert(at, item) => OneInsert(s, at, item);
    case Delete(at) => OneDelete(s, at);
    case Replace(at, item) => OneReplace(s, at, item);
  }

  /** No script is shorter than the distance. */
  lemma {:induction false} ScriptsAreLonger<T>(script: seq<Edit<T>>, a: seq<T>, b: seq<T>)
    requires Turns(script, a, b)
    ensures Distance(a, b) <= |script|
    decreases |script|
  {
    if script == [] {
      ZeroIffEqual(a, b);
    } else {
      var next := Apply(script[0], a);
      OneEdit(script[0], a);
      ScriptsAreLonger(script[1..], next, b);
      Triangle(a, next, b);
    }
  }

  lemma ApplyBeforeTail<T>(e: Edit<T>, a: seq<T>, tail: seq<T>)
    requires Applies(e, a)
    ensures Applies(e, a + tail) && Apply(e, a + tail) == Apply(e, a) + tail
  {
    assert (a + tail)[..e.at] == a[..e.at];
    if e.Insert? {
      assert (a + tail)[e.at..] == a[e.at..] + tail;
    } else {
      assert (a + tail)[e.at + 1..] == a[e.at + 1..] + tail;
    }
  }

  lemma {:induction false} KeepTail<T>(script: seq<Edit<T>>, a: seq<T>, b: seq<T>, tail: seq<T>)
    requires Turns(script, a, b)
    ensures Turns(script, a + tail, b + tail)
    decreases |script|
  {
    if script != [] {
      ApplyBeforeTail(script[0], a, tail);
      KeepTail(script[1..], Apply(script[0], a), b, tail);
    }
  }

  lemma {:induction false} ThenOne<T>(script: seq<Edit<T>>, a: seq<T>, b: seq<T>, e: Edit<T>)
    requires Turns(script, a, b) && Applies(e, b)
    ensures Turns(script + [e], a, Apply(e, b))
    decreases |script|
  {
    if script == [] {
      assert (script + [e])[1..] == [];
    } else {
      ThenOne(script[1..], Apply(script[0], a), b, e);
      assert (script + [e])[1..] == script[1..] + [e];
    }
  }

  lemma FirstOne<T>(e: Edit<T>, script: seq<Edit<T>>, a: seq<T>, next: seq<T>, b: seq<T>)
    requires Applies(e, a) && Apply(e, a) == next && Turns(script, next, b)
    ensures Turns([e] + script, a, b)
  {
    assert ([e] + script)[1..] == script;
  }

  lemma DropLast<T>(script: seq<Edit<T>>, a: seq<T>, b: seq<T>)
    requires a != [] && Turns(script, Init(a), b)
    ensures Turns([Edit.Delete(|a| - 1)] + script, a, b)
  {
    var e: Edit<T> := Edit.Delete(|a| - 1);
    assert Apply(e, a) == Init(a);
    FirstOne(e, script, a, Init(a), b);
  }

  lemma AddLast<T>(script: seq<Edit<T>>, a: seq<T>, b: seq<T>)
    requires b != [] && Turns(script, a, Init(b))
    ensures Turns(script + [Insert(|b| - 1, Last(b))], a, b)
  {
    var e := Insert(|b| - 1, Last(b));
    assert Apply(e, Init(b)) == b;
    ThenOne(script, a, Init(b), e);
  }

  lemma ReplaceLast<T>(a: seq<T>, item: T)
    requires a != []
    ensures Apply(Replace(|a| - 1, item), a) == Init(a) + [item]
  {
  }

  lemma InitLast<T>(a: seq<T>)
    requires a != []
    ensures Init(a) + [Last(a)] == a
  {
  }

  /** The last elements agree, or the last element is replaced before the rest is edited. */
  lemma AlignLast<T>(core: seq<Edit<T>>, a: seq<T>, b: seq<T>) returns (script: seq<Edit<T>>)
    requires a != [] && b != [] && Turns(core, Init(a), Init(b))
    ensures Turns(script, a, b) && |script| == |core| + Mismatch(a, b)
  {
    KeepTail(core, Init(a), Init(b), [Last(b)]);
    InitLast(a);
    InitLast(b);
    if Last(a) == Last(b) {
      script := core;
    } else {
      ReplaceLast(a, Last(b));
      FirstOne(Replace(|a| - 1, Last(b)), core, a, Init(a) + [Last(b)], b);
      script := [Replace(|a| - 1, Last(b))] + core;
    }
  }

  /** Some script is exactly as long as the distance. */
  lemma {:induction false} ShortestScript<T>(a: seq<T>, b: seq<T>) returns (script: seq<Edit<T>>)
    ensures Turns(script, a, b) && |script| == Distance(a, b)
    decreases |a| + |b|
  {
    if a == [] && b == [] {
      script := [];
    } else if a != [] && (b == [] || Distance(a, b) == Distance(Init(a), b) + 1) {
      var rest := ShortestScript(Init(a), b);
      DropLast(rest, a, b);
      script := [Edit.Delete(|a| - 1)] + rest;
    } else if a == [] || Distance(a, b) == Distance(a, Init(b)) + 1 {
      var start := ShortestScript(a, Init(b));
      AddLast(start, a, b);
      script := start + [Insert(|b| - 1, Last(b))];
    } else {
      var core := ShortestScript(Init(a), Init(b));
      script := AlignLast(core, a, b);
    }
  }

  /** The distance is within `n` exactly when some script of at most `n` edits turns `a` into `b`. */
  lemma FewestEdits<T>(a: seq<T>, b: seq<T>, n: nat)
    ensures Distance(a, b) <= n <==> exists script: seq<Edit<T>> :: |script| <= n && Turns(script, a, b)
  {
    if Distance(a, b) <= n {
      var script := ShortestScript(a, b);
    }
    if script: seq<Edit<T>> :| |script| <= n && Turns(script, a, b) {
      ScriptsAreLonger(script, a, b);
    }
  }

  // ---------------------------------------------------------------------------
  // closestArgument
  // ---------------------------------------------------------------------------

  /** `text.split("_")`. */
  function Words(text: string): (words: seq<string>)
    ensures words != []
  {
    if text == [] then [""]
    else if text[0] == '_' then [""] + Words(text[1..])
    else var rest := Words(text[1..]); [[text[0]] + rest[0]] + rest[1..]
  }

  predicate OneWord(text: string) {
    forall i :: 0 <= i < |text| ==> text[i] != '_'
  }

  /** `words.join("_")`. */
  function Joined(words: seq<string>): string
    requires words != []
  {
    if |words| == 1 then words[0] else words[0] + "_" + Joined(words[1..])
  }

  /** The words are free of underscores, and underscores between them make the text. */
  ghost predicate AreWords(words: seq<string>, text: string) {
    words != [] && (forall i :: 0 <= i < |words| ==> OneWord(words[i])) && Joined(words) == text
  }

  lemma {:induction false} WordsJoin(text: string)
    ensures AreWords(Words(text), text)
  {
    if text != [] {
      var rest := Words(text[1..]);
      WordsJoin(text[1..]);
      if text[0] == '_' {
        assert ([""] + rest)[1..] == rest && Joined([""] + rest) == "" + "_" + text[1..];
      } else {
        var words := [[text[0]] + rest[0]] + rest[1..];
        assert words[1..] == rest[1..] && Joined(words) == [text[0]] + Joined(rest);
      }
    }
  }

  /** No other list of words makes the text. */
  lemma {:induction false} WordsUnique(words: seq<string>, text: string)
    requires AreWords(words, text)
    ensures words == Words(text)
    decreases |text|
  {
    if words[0] != [] {
      var shorter := [words[0][1..]] + words[1..];
      assert shorter[1..] == words[1..] && [words[0][0]] + words[0][1..] == words[0];
      assert text[0] == words[0][0] && Joined(shorter) == text[1..];
      WordsUnique(shorter, text[1..]);
      assert words == [[text[0]] + shorter[0]] + shorter[1..];
    } else if |words| > 1 {
      assert text == "" + "_" + Joined(words[1..]) && text[1..] == Joined(words[1..]);
      WordsUnique(words[1..], text[1..]);
      assert words == [""] + words[1..];
    } else {
      assert words == [""];
    }
  }

  /** `text[i..j]` has no underscore in it, and one, or an end of the text, on either side. */
  predicate WordAt(text: string, i: nat, j: nat) {
    && i <= j <= |text| && OneWord(text[i..j])
    && (i == 0 || text[i - 1] == '_') && (j == |text| || text[j] == '_')
  }

  /** A word that starts at an underscore is empty. */
  lemma EmptyBefore(text: string, j: nat)
    requires text != [] && text[0] == '_' && WordAt(text, 0, j)
    ensures j == 0
  {
    if j > 0 {
      BeginsWithUnderscore(text[0..j]);
    }
  }

  lemma BeginsWithUnderscore(word: string)
    requires word != [] && word[0] == '_'
    ensures !OneWord(word)
  {
  }

  lemma {:induction false} WordAtIsWord(text: string, i: nat, j: nat)
    requires WordAt(text, i, j)
    ensures if i == 0 then text[i..j] == Words(text)[0] else text[i..j] in Words(text)[1..]
  {
    if text != [] {
      var rest := text[1..];
      if i > 0 {
        assert rest[i - 1..j - 1] == text[i..j];
        WordAtIsWord(rest, i - 1, j - 1);
      } else if text[0] != '_' {
        assert text[i..j] == [text[0]] + rest[0..j - 1] && text[i..j][1..] == rest[0..j - 1];
        WordAtIsWord(rest, 0, j - 1);
      } else {
        EmptyBefore(text, j);
      }
    }
  }

  /** Positions in the text behind its first letter, and in the text. */
  lemma OneFurther(text: string, i: nat, j: nat)
    requires i <= j < |text|
    ensures text[1..][i..j] == text[i + 1..j + 1] && text[0..j + 1] == [text[0]] + text[1..][0..j]
  {
  }

  lemma {:induction false} WordIsAt(text: string, n: nat) returns (i: nat, j: nat)
    requires n < |Words(text)|
    ensures WordAt(text, i, j) && text[i..j] == Words(text)[n] && (n == 0 <==> i == 0)
  {
    if text == [] || (text[0] == '_' && n == 0) {
      i, j := 0, 0;
    } else {
      var rest := text[1..];
      i, j := WordIsAt(rest, if text[0] == '_' then n - 1 else n);
      if n == 0 {
        OneFurther(text, i, j);
        j := j + 1;
      } else {
        OneFurther(text, i, j);
        i, j := i + 1, j + 1;
      }
    }
  }

  /** The key stands in the argument as a word, or starts with the argument. */
  ghost predicate SharesPart(lower: string, name: string) {
    (exists i: nat, j: nat :: WordAt(name, i, j) && name[i..j] == lower) || name <= lower
  }

  lemma SharesAWord(lower: string, name: string)
    ensures SharesPart(lower, name) <==> lower in Words(name) || name <= lower
  {
    if i: nat, j: nat :| WordAt(name, i, j) && name[i..j] == lower {
      WordAtIsWord(name, i, j);
    }
    if lower in Words(name) {
      var n :| 0 <= n < |Words(name)| && Words(name)[n] == lower;
      var i, j := WordIsAt(name, n);
    }
  }

  /** `index` is the first position in `names` with the least distance from `lower`. */
  ghost predicate FirstNearest(lower: string, names: seq<string>, index: nat)
  {
    && index < |names|
    && (forall j :: 0 <= j < |names| ==> Distance(lower, names[index]) <= Distance(lower, names[j]))
    && (forall j :: 0 <= j < index ==> Distance(lower, names[index]) < Distance(lower, names[j]))
  }

  /** `best` is the first name at the least distance from `lower`, provided that is at most 2. */
  ghost predicate IsNearest(lower: string, names: seq<string>, best: Option<string>)
  {
    match best
    case Some(name) => exists i: nat :: FirstNearest(lower, names, i) && names[i] == name && Distance(lower, name) <= 2
    case None => forall j :: 0 <= j < |names| ==> Distance(lower, names[j]) > 2
  }

  /** The fallback: the best-so-far loop starts at 3, so only a distance of at most 2 is taken. */
  method Nearest(lower: string, names: seq<string>) returns (best: Option<string>)
    ensures IsNearest(lower, names, best)
  {
    best := None;
    var bestDistance: nat := 3;
    ghost var chosen := 0;
    for i := 0 to |names|
      invariant best.None? ==> bestDistance == 3
      invariant best.Some? ==> chosen < i && best.value == names[chosen] && bestDistance == Distance(lower, names[chosen]) <= 2
      invariant forall j :: 0 <= j < i ==> bestDistance <= Distance(lower, names[j])
      invariant best.Some? ==> forall j :: 0 <= j < chosen ==> bestDistance < Distance(lower, names[j])
    {
      var d := EditDistanceOf(lower, names[i]);
      if d < bestDistance {
        best, bestDistance, chosen := Some(names[i]), d, i;
      }
    }
    assert best.Some? ==> FirstNearest(lower, names, chosen);
  }

  ghost predicate FirstSharing(lower: string, names: seq<string>, index: nat)
  {
    index < |names| && SharesPart(lower, names[index]) && forall j :: 0 <= j < index ==> !SharesPart(lower, names[j])
  }

  /**
   * The argument a misspelt key most likely meant. `lower` is the key in lower
   * case. An empty name that matches by part is falsy in the source, so the
   * search by distance still runs.
   */
  method ClosestArgument(lower: string, names: seq<string>) returns (best: Option<string>)
    ensures forall i: nat :: FirstSharing(lower, names, i) && names[i] != [] ==> best == Some(names[i])
    ensures (forall i: nat :: FirstSharing(lower, names, i) ==> names[i] == []) ==> IsNearest(lower, names, best)
  {
    var at := 0;
    forall name ensures SharesPart(lower, name) <==> lower in Words(name) || name <= lower { SharesAWord(lower, name); }
    while at < |names| && !(lower in Words(names[at]) || names[at] <= lower)
      invariant at <= |names| && forall j :: 0 <= j < at ==> !SharesPart(lower, names[j])
    {
      at := at + 1;
    }
    assert at < |names| ==> FirstSharing(lower, names, at);
    if at < |names| && names[at] != [] {
      return Some(names[at]);
    }
    best := Nearest(lower, names);
  }
}
