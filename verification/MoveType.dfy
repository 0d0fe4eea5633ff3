/** The Move-type recogniser, and its grammar. */
module MoveType {
  import opened Wrappers

  // ---------------------------------------------------------------------------
  // Characters
  // ---------------------------------------------------------------------------

  /** White space and line terminators, as `String.prototype.trim` removes them. */
  predicate IsSpace(c: char) {
    '\t' <= c <= '\r' || c == ' ' || c == '\U{00A0}' || c == '\U{1680}' || '\U{2000}' <= c <= '\U{200A}'
    || c == '\U{2028}' || c == '\U{2029}' || c == '\U{202F}' || c == '\U{205F}' || c == '\U{3000}' || c == '\U{FEFF}'
  }

  predicate IsHex(c: char) {
    '0' <= c <= '9' || 'a' <= c <= 'f' || 'A' <= c <= 'F'
  }

  predicate IsLetter(c: char) {
    'a' <= c <= 'z' || 'A' <= c <= 'Z' || c == '_'
  }

  predicate IsWordChar(c: char) {
    IsLetter(c) || '0' <= c <= '9'
  }

  /** Neither white space nor a character the grammar gives a role to. */
  predicate IsPlain(c: char) {
    IsWordChar(c) || c == ':'
  }

  predicate AllPlain(s: string) {
    forall i :: 0 <= i < |s| ==> IsPlain(s[i])
  }

  function TrimStart(s: string): string {
    if s != [] && IsSpace(s[0]) then TrimStart(s[1..]) else s
  }

  function TrimEnd(s: string): string {
    if s != [] && IsSpace(s[|s| - 1]) then TrimEnd(s[..|s| - 1]) else s
  }

  function Trim(s: string): (t: string)
    ensures |t| <= |s|
  {
    TrimShrinks(s);
    TrimEnd(TrimStart(s))
  }

  lemma SpacesAre(c: char)
    ensures IsSpace(c) <==> c in "\t\n\U{B}\U{C}\r \U{A0}\U{1680}\U{2000}\U{2001}\U{2002}\U{2003}\U{2004}\U{2005}\U{2006}\U{2007}\U{2008}\U{2009}\U{200A}\U{2028}\U{2029}\U{202F}\U{205F}\U{3000}\U{FEFF}"
  {
  }

  lemma {:induction false} TrimShrinks(s: string)
    ensures |TrimStart(s)| <= |s| && |TrimEnd(s)| <= |s|
    ensures |TrimEnd(TrimStart(s))| <= |s|
    decreases |s|
  {
    TrimStartShrinks(s);
    TrimEndShrinks(s);
    TrimEndShrinks(TrimStart(s));
  }

  lemma {:induction false} TrimStartShrinks(s: string)
    ensures |TrimStart(s)| <= |s|
  {
    if s != [] && IsSpace(s[0]) { TrimStartShrinks(s[1..]); }
  }

  lemma {:induction false} TrimEndShrinks(s: string)
    ensures |TrimEnd(s)| <= |s|
  {
    if s != [] && IsSpace(s[|s| - 1]) { TrimEndShrinks(s[..|s| - 1]); }
  }

  // ---------------------------------------------------------------------------
  // Brackets
  // ---------------------------------------------------------------------------

  /** Bracket depth after `s`, starting at depth `d`; none when a bracket closes nothing. */
  function Depth(s: string, d: nat): Option<nat> {
    if s == [] then Some(d)
    else if s[0] == '<' then Depth(s[1..], d + 1)
    else if s[0] == '>' then if d == 0 then None else Depth(s[1..], d - 1)
    else Depth(s[1..], d)
  }

  predicate Balanced(s: string) {
    Depth(s, 0) == Some(0)
  }

  /** As `Depth`, and none as well when a comma stands outside every bracket. */
  function Walk(s: string, d: nat): Option<nat> {
    if s == [] then Some(d)
    else if s[0] == '<' then Walk(s[1..], d + 1)
    else if s[0] == '>' then if d == 0 then None else Walk(s[1..], d - 1)
    else if s[0] == ',' && d == 0 then None
    else Walk(s[1..], d)
  }

  /** One list item: balanced, with no comma at the top level. */
  predicate Item(s: string) {
    Walk(s, 0) == Some(0)
  }

  lemma {:induction false} WalkAppend(a: string, b: string, d: nat)
    ensures Walk(a + b, d) == match Walk(a, d) case None => None case Some(e) => Walk(b, e)
  {
    if a == [] {
      assert a + b == b;
    } else {
      assert (a + b)[1..] == a[1..] + b;
      WalkAppend(a[1..], b, if a[0] == '<' then d + 1 else if a[0] == '>' && d > 0 then d - 1 else d);
    }
  }

  /** Inside a bracket every comma is allowed. */
  lemma {:induction false} WalkDeeper(s: string, d: nat)
    requires Walk(s, d).Some?
    ensures Walk(s, d + 1) == Some(Walk(s, d).value + 1)
  {
    if s != [] {
      WalkDeeper(s[1..], if s[0] == '<' then d + 1 else if s[0] == '>' then d - 1 else d);
    }
  }

  lemma {:induction false} WalkQuiet(s: string, d: nat)
    requires forall i :: 0 <= i < |s| ==> s[i] != '<' && s[i] != '>' && s[i] != ','
    ensures Walk(s, d) == Some(d)
  {
    if s != [] { WalkQuiet(s[1..], d); }
  }

  // ---------------------------------------------------------------------------
  // splitTypeArgs
  // ---------------------------------------------------------------------------

  /** The parts with a comma between each two. */
  function Join(parts: seq<string>): string
    requires parts != []
  {
    if |parts| == 1 then parts[0] else parts[0] + "," + Join(parts[1..])
  }

  function Prepend(c: char, parts: Option<seq<string>>): Option<seq<string>> {
    match parts
    case None => None
    case Some(ps) => if ps == [] then None else Some([[c] + ps[0]] + ps[1..])
  }

  /** The items of `s` when `d` brackets are already open. */
  function Split(s: string, d: nat): Option<seq<string>> {
    if s == [] then if d == 0 then Some([""]) else None
    else if s[0] == '<' then Prepend('<', Split(s[1..], d + 1))
    else if s[0] == '>' then if d == 0 then None else Prepend('>', Split(s[1..], d - 1))
    else if s[0] == ',' && d == 0 then
      var rest := Split(s[1..], 0);
      if rest.None? then None else Some([""] + rest.value)
    else Prepend(s[0], Split(s[1..], d))
  }

  /** Parts already cut, the open part so far, and the items of what is left. */
  ghost function Glue(parts: seq<string>, open: string, rest: Option<seq<string>>): Option<seq<string>> {
    match rest
    case None => None
    case Some(ps) => if ps == [] then None else Some(parts + [open + ps[0]] + ps[1..])
  }

  lemma GluePrepend(parts: seq<string>, open: string, c: char, rest: Option<seq<string>>)
    ensures Glue(parts, open, Prepend(c, rest)) == Glue(parts, open + [c], rest)
  {
    if rest.Some? && rest.value != [] {
      assert open + ([c] + rest.value[0]) == open + [c] + rest.value[0];
    }
  }

  lemma GlueCut(parts: seq<string>, open: string, rest: Option<seq<string>>)
    requires rest.Some? ==> rest.value != []
    ensures Glue(parts, open, if rest.None? then None else Some([""] + rest.value)) == Glue(parts + [open], "", rest)
  {
    if rest.Some? {
      assert open + "" == open && "" + rest.value[0] == rest.value[0] && ([""] + rest.value)[1..] == rest.value;
      assert parts + [open] + rest.value == parts + [open] + [rest.value[0]] + rest.value[1..];
    }
  }

  lemma GlueNothing(rest: Option<seq<string>>)
    requires rest.Some? ==> rest.value != []
    ensures Glue([], "", rest) == rest
  {
    if rest.Some? {
      assert "" + rest.value[0] == rest.value[0] && [] + [rest.value[0]] + rest.value[1..] == rest.value;
    }
  }

  lemma {:induction false} SplitNonempty(s: string, d: nat)
    ensures Split(s, d).Some? ==> Split(s, d).value != []
  {
  }

  /** The loop over the characters, with a counter of open brackets. */
  method SplitTypeArgs(text: string) returns (result: Option<seq<string>>)
    ensures result == Split(text, 0)
  {
    var parts: seq<string> := [];
    var depth: nat := 0;
    var start := 0;
    assert text[0..] == text;
    SplitNonempty(text, 0);
    GlueNothing(Split(text, 0));
    for i := 0 to |text|
      invariant start <= i
      invariant Split(text, 0) == Glue(parts, text[start..i], Split(text[i..], depth))
    {
      var c := text[i];
      assert text[i..][0] == c && text[i..][1..] == text[i + 1..];
      assert text[start..i] + [c] == text[start..i + 1];
      if c == '<' {
        GluePrepend(parts, text[start..i], c, Split(text[i + 1..], depth + 1));
        depth := depth + 1;
      } else if c == '>' {
        if depth == 0 {
          return None;
        }
        GluePrepend(parts, text[start..i], c, Split(text[i + 1..], depth - 1));
        depth := depth - 1;
      } else if c == ',' && depth == 0 {
        SplitNonempty(text[i + 1..], 0);
        GlueCut(parts, text[start..i], Split(text[i + 1..], 0));
        parts := parts + [text[start..i]];
        start := i + 1;
        assert text[start..i + 1] == "";
      } else {
        GluePrepend(parts, text[start..i], c, Split(text[i + 1..], depth));
      }
    }
    assert text[|text|..] == "";
    if depth != 0 {
      return None;
    }
    assert text[start..] == text[start..|text|] + "" && [""][1..] == [] && parts + [text[start..]] + [] == parts + [text[start..]];
    result := Some(parts + [text[start..]]);
  }

  lemma {:induction false} SplitTake(p: string, rest: string, d: nat)
    requires Walk(p, d) == Some(0)
    requires rest == "" || rest[0] == ','
    ensures rest == "" ==> Split(p + rest, d) == Some([p])
    ensures rest != "" && Split(rest[1..], 0).Some? ==> Split(p + rest, d) == Some([p] + Split(rest[1..], 0).value)
  {
    if p == [] {
      assert p + rest == rest;
    } else {
      assert (p + rest)[1..] == p[1..] + rest;
      assert [p[0]] + p[1..] == p && [p[1..]][1..] == [] && [p] + [] == [p];
      SplitTake(p[1..], rest, if p[0] == '<' then d + 1 else if p[0] == '>' then d - 1 else d);
    }
  }

  /** Items joined by commas split into exactly those items. */
  lemma {:induction false} SplitOfJoin(parts: seq<string>)
    requires parts != [] && forall i :: 0 <= i < |parts| ==> Item(parts[i])
    ensures Split(Join(parts), 0) == Some(parts)
  {
    if |parts| == 1 {
      SplitTake(parts[0], "", 0);
      assert parts[0] + "" == parts[0] && [parts[0]] == parts;
    } else {
      SplitOfJoin(parts[1..]);
      var rest := "," + Join(parts[1..]);
      assert rest[1..] == Join(parts[1..]) && parts[0] + "," + Join(parts[1..]) == parts[0] + rest;
      SplitTake(parts[0], rest, 0);
      assert [parts[0]] + parts[1..] == parts;
    }
  }

  lemma {:induction false} SplitSucceeds(s: string, d: nat)
    ensures Split(s, d).Some? <==> Depth(s, d) == Some(0)
  {
    if s != [] {
      var e := if s[0] == '<' then d + 1 else if s[0] == '>' && d > 0 then d - 1 else d;
      SplitNonempty(s[1..], e);
      SplitSucceeds(s[1..], e);
    }
  }

  lemma JoinPrepend(c: char, parts: seq<string>)
    requires parts != []
    ensures Join([[c] + parts[0]] + parts[1..]) == [c] + Join(parts)
  {
    var longer := [[c] + parts[0]] + parts[1..];
    assert longer[1..] == parts[1..];
    if |parts| > 1 {
      PrependAssoc([c], parts[0], Join(parts[1..]));
    }
  }

  lemma PrependAssoc(c: string, first: string, rest: string)
    ensures c + first + "," + rest == c + (first + "," + rest)
  {
  }

  lemma {:induction false} SplitJoins(s: string, d: nat)
    requires Split(s, d).Some?
    ensures Split(s, d).value != [] && Join(Split(s, d).value) == s
  {
    if s != [] {
      var e := if s[0] == '<' then d + 1 else if s[0] == '>' then d - 1 else d;
      SplitJoins(s[1..], e);
      var rest := Split(s[1..], e).value;
      assert s == [s[0]] + s[1..];
      if s[0] == ',' && d == 0 {
        assert ([""] + rest)[1..] == rest && "" + "," + Join(rest) == [','] + Join(rest);
      } else {
        JoinPrepend(s[0], rest);
      }
    }
  }

  lemma {:induction false} SplitItems(s: string, d: nat)
    requires Split(s, d).Some? && Split(s, d).value != []
    ensures Walk(Split(s, d).value[0], d) == Some(0)
    ensures forall i :: 1 <= i < |Split(s, d).value| ==> Item(Split(s, d).value[i])
  {
    if s != [] {
      var e := if s[0] == '<' then d + 1 else if s[0] == '>' then d - 1 else d;
      SplitNonempty(s[1..], e);
      SplitItems(s[1..], e);
      if !(s[0] == ',' && d == 0) {
        assert Split(s, d).value[0][1..] == Split(s[1..], e).value[0];
      }
    }
  }

  /** Split succeeds exactly on balanced text, and then cuts it into items that join back to it. */
  lemma SplitExact(s: string)
    ensures Split(s, 0).Some? <==> Balanced(s)
    ensures Split(s, 0).Some? ==>
      var parts := Split(s, 0).value;
      parts != [] && Join(parts) == s && forall i :: 0 <= i < |parts| ==> Item(parts[i])
  {
    SplitSucceeds(s, 0);
    if Split(s, 0).Some? {
      SplitJoins(s, 0);
      SplitItems(s, 0);
    }
  }

  /** No other list of items joins to the same text. */
  lemma SplitUnique(s: string, parts: seq<string>)
    requires parts != [] && Join(parts) == s && forall i :: 0 <= i < |parts| ==> Item(parts[i])
    ensures Split(s, 0) == Some(parts)
  {
    SplitOfJoin(parts);
  }

  // ---------------------------------------------------------------------------
  // isMoveType
  // ---------------------------------------------------------------------------

  predicate IsPrimitive(t: string) {
    t == "bool" || t == "u8" || t == "u16" || t == "u32" || t == "u64" || t == "u128" || t == "u256"
    || t == "address" || t == "signer"
  }

  /** `0x` and 1 to 64 hexadecimal digits. */
  predicate IsAddress(s: string) {
    3 <= |s| <= 66 && s[0] == '0' && s[1] == 'x' && forall i :: 2 <= i < |s| ==> IsHex(s[i])
  }

  /** A Move identifier of at most 128 characters. */
  predicate IsIdent(s: string) {
    1 <= |s| <= 128 && IsLetter(s[0]) && forall i :: 0 <= i < |s| ==> IsWordChar(s[i])
  }

  const LOWER := "abcdefghijklmnopqrstuvwxyz"
  const UPPER := "ABCDEFGHIJKLMNOPQRSTUVWXYZ"
  const DIGITS := "0123456789"

  /** The primitives, addresses and identifiers, letter by letter. */
  lemma NamesAre(s: string)
    ensures IsPrimitive(s) <==> s in {"bool", "u8", "u16", "u32", "u64", "u128", "u256", "address", "signer"}
    ensures IsAddress(s) <==> ("0x" <= s && 1 <= |s| - 2 <= 64 && forall i :: 2 <= i < |s| ==> s[i] in "0123456789abcdefABCDEF")
    ensures IsIdent(s) <==>
      (1 <= |s| <= 128 && s[0] !in DIGITS && forall i :: 0 <= i < |s| ==> s[i] in LOWER || s[i] in UPPER || s[i] in DIGITS || s[i] == '_')
  {
    forall c: char ensures IsHex(c) <==> c in "0123456789abcdefABCDEF" { HexIs(c); }
    forall c: char ensures IsLetter(c) <==> c in LOWER || c in UPPER || c == '_' { LetterIs(c); }
    forall c: char ensures '0' <= c <= '9' <==> c in DIGITS { DigitIs(c); }
  }

  lemma HexIs(c: char)
    ensures IsHex(c) <==> c in "0123456789abcdefABCDEF"
  {
  }

  lemma DigitIs(c: char)
    ensures '0' <= c <= '9' <==> c in DIGITS
  {
  }

  lemma LowerIs(c: char)
    ensures 'a' <= c <= 'z' <==> c in LOWER
  {
  }

  lemma UpperIs(c: char)
    ensures 'A' <= c <= 'Z' <==> c in UPPER
  {
  }

  lemma LetterIs(c: char)
    ensures IsLetter(c) <==> c in LOWER || c in UPPER || c == '_'
  {
    LowerIs(c);
    UpperIs(c);
  }

  /** `s.split("::")`. */
  function Segments(s: string): (segments: seq<string>)
    ensures segments != []
  {
    if |s| < 2 then [s]
    else if s[0] == ':' && s[1] == ':' then [""] + Segments(s[2..])
    else var rest := Segments(s[1..]); [[s[0]] + rest[0]] + rest[1..]
  }

  predicate IsPath(head: string) {
    var segments := Segments(head);
    |segments| == 3 && IsAddress(segments[0]) && IsIdent(segments[1]) && IsIdent(segments[2])
  }

  /** The first `<`, or the length when there is none. */
  function FirstBracket(t: string): (i: nat)
    ensures i <= |t| && (forall j :: 0 <= j < i ==> t[j] != '<') && (i < |t| ==> t[i] == '<')
  {
    if t == [] || t[0] == '<' then 0 else 1 + FirstBracket(t[1..])
  }

  const VECTOR := "vector<"

  predicate IsVectorText(t: string) {
    VECTOR <= t && t[|t| - 1] == '>'
  }

  predicate IsMoveType(text: string, typeArgument: bool)
    decreases |text|
  {
    var t := Trim(text);
    if typeArgument && IsPrimitive(t) then true
    else if typeArgument && IsVectorText(t) then IsMoveType(t[7..|t| - 1], true)
    else
      var lt := FirstBracket(t);
      if !IsPath(t[..lt]) then false
      else if lt == |t| then true
      else if t[|t| - 1] != '>' then false
      else
        match Split(t[lt + 1..|t| - 1], 0)
        case None => false
        case Some(args) =>
          PartsAreShorter(t[lt + 1..|t| - 1]);
          forall i :: 0 <= i < |args| ==> IsMoveType(args[i], true)
  }

  lemma {:induction false} PartLength(parts: seq<string>, i: nat)
    requires i < |parts|
    ensures |parts[i]| <= |Join(parts)|
  {
    if |parts| > 1 && i > 0 { PartLength(parts[1..], i - 1); }
  }

  lemma PartsAreShorter(s: string)
    ensures Split(s, 0).Some? ==> forall i :: 0 <= i < |Split(s, 0).value| ==> |Split(s, 0).value[i]| <= |s|
  {
    if Split(s, 0).Some? {
      SplitExact(s);
      forall i | 0 <= i < |Split(s, 0).value| ensures |Split(s, 0).value[i]| <= |s| { PartLength(Split(s, 0).value, i); }
    }
  }

  // ---------------------------------------------------------------------------
  // The grammar
  // ---------------------------------------------------------------------------

  datatype Type =
    | Primitive(name: string)
    | Vector(element: Type)
    | Struct(address: string, moduleName: string, name: string, args: seq<Type>)

  predicate WellFormed(ty: Type) {
    match ty
    case Primitive(name) => IsPrimitive(name)
    case Vector(element) => WellFormed(element)
    case Struct(address, moduleName, name, args) =>
      IsAddress(address) && IsIdent(moduleName) && IsIdent(name) && forall i :: 0 <= i < |args| ==> WellFormed(args[i])
  }

  function Head(ty: Type): string
    requires ty.Struct?
  {
    ty.address + "::" + ty.moduleName + "::" + ty.name
  }

  /** `text` prints `ty`, with any white space around the whole and around each type argument. */
  ghost predicate Prints(ty: Type, text: string)
  {
    var t := Trim(text);
    match ty
    case Primitive(name) => t == name
    case Vector(element) => exists inner :: t == VECTOR + inner + ">" && Prints(element, inner)
    case Struct(_, _, _, args) =>
      if args == [] then t == Head(ty)
      else exists parts: seq<string> ::
        |parts| == |args| && t == Head(ty) + "<" + Join(parts) + ">" && forall i :: 0 <= i < |args| ==> Prints(args[i], parts[i])
  }

  // ---------------------------------------------------------------------------
  // Paths
  // ---------------------------------------------------------------------------

  predicate NoColon(s: string) {
    forall i :: 0 <= i < |s| ==> s[i] != ':'
  }

  lemma {:induction false} OneSegment(s: string)
    requires NoColon(s)
    ensures Segments(s) == [s]
  {
    if |s| >= 2 {
      OneSegment(s[1..]);
      assert [s[0]] + s[1..] == s;
    }
  }

  lemma {:induction false} NextSegment(s: string, rest: string)
    requires NoColon(s)
    ensures Segments(s + "::" + rest) == [s] + Segments(rest)
  {
    var t := s + "::" + rest;
    if s == [] {
      assert t[2..] == rest;
    } else {
      assert t[1..] == s[1..] + "::" + rest;
      NextSegment(s[1..], rest);
      assert [s[0]] + s[1..] == s;
    }
  }

  function Colons(segments: seq<string>): string
    requires segments != []
  {
    if |segments| == 1 then segments[0] else segments[0] + "::" + Colons(segments[1..])
  }

  lemma {:induction false} SegmentsJoin(s: string)
    ensures Colons(Segments(s)) == s
  {
    if |s| >= 2 {
      if s[0] == ':' && s[1] == ':' {
        SegmentsJoin(s[2..]);
        assert ([""] + Segments(s[2..]))[1..] == Segments(s[2..]);
        assert s == "" + "::" + s[2..];
      } else {
        var rest := Segments(s[1..]);
        SegmentsJoin(s[1..]);
        assert s == [s[0]] + s[1..];
        if |rest| > 1 {
          assert [s[0]] + rest[0] + "::" + Colons(rest[1..]) == [s[0]] + (rest[0] + "::" + Colons(rest[1..]));
        }
      }
    }
  }

  /** A struct head is a path, names its three parts, and holds no character the grammar uses. */
  lemma HeadShape(ty: Type)
    requires ty.Struct? && WellFormed(ty)
    ensures Segments(Head(ty)) == [ty.address, ty.moduleName, ty.name]
    ensures IsPath(Head(ty)) && AllPlain(Head(ty)) && |Head(ty)| >= 9 && Head(ty)[0] == '0'
  {
    assert Head(ty) == ty.address + "::" + (ty.moduleName + "::" + ty.name);
    NextSegment(ty.address, ty.moduleName + "::" + ty.name);
    NextSegment(ty.moduleName, ty.name);
    OneSegment(ty.name);
  }

  lemma PathShape(head: string) returns (ty: Type)
    requires IsPath(head)
    ensures ty.Struct? && ty.args == [] && WellFormed(ty) && Head(ty) == head
  {
    var segments := Segments(head);
    SegmentsJoin(head);
    var tail := segments[1..];
    assert tail[1..] == [segments[2]] && Colons(tail[1..]) == segments[2];
    assert Colons(tail) == segments[1] + "::" + segments[2];
    assert Colons(segments) == segments[0] + "::" + Colons(tail);
    ty := Struct(segments[0], segments[1], segments[2], []);
    assert Head(ty) == segments[0] + "::" + (segments[1] + "::" + segments[2]);
  }

  // ---------------------------------------------------------------------------
  // White space
  // ---------------------------------------------------------------------------

  predicate AllSpace(s: string) {
    forall i :: 0 <= i < |s| ==> IsSpace(s[i])
  }

  lemma {:induction false} StartSpace(s: string) returns (before: string)
    ensures AllSpace(before) && s == before + TrimStart(s)
  {
    if s != [] && IsSpace(s[0]) {
      before := StartSpace(s[1..]);
      before := [s[0]] + before;
    } else {
      before := [];
    }
  }

  lemma {:induction false} EndSpace(s: string) returns (after: string)
    ensures AllSpace(after) && s == TrimEnd(s) + after
  {
    if s != [] && IsSpace(s[|s| - 1]) {
      after := EndSpace(s[..|s| - 1]);
      after := after + [s[|s| - 1]];
    } else {
      after := [];
    }
  }

  /** Trimming takes the white space off both ends, all of it and nothing else. */
  lemma TrimIs(s: string) returns (before: string, after: string)
    ensures s == before + Trim(s) + after && AllSpace(before) && AllSpace(after)
    ensures Trim(s) != [] ==> !IsSpace(Trim(s)[0]) && !IsSpace(Trim(s)[|Trim(s)| - 1])
  {
    before := StartSpace(s);
    after := EndSpace(TrimStart(s));
    StartsBare(s);
    EndsBare(TrimStart(s));
  }

  lemma {:induction false} StartsBare(s: string)
    ensures TrimStart(s) != [] ==> !IsSpace(TrimStart(s)[0])
  {
    if s != [] && IsSpace(s[0]) {
      StartsBare(s[1..]);
    }
  }

  lemma {:induction false} EndsBare(s: string)
    ensures TrimEnd(s) != [] ==> !IsSpace(TrimEnd(s)[|TrimEnd(s)| - 1]) && TrimEnd(s)[0] == s[0]
  {
    if s != [] && IsSpace(s[|s| - 1]) {
      EndsBare(s[..|s| - 1]);
    }
  }

  lemma TrimItem(s: string)
    requires Item(Trim(s))
    ensures Item(s)
  {
    var before := StartSpace(s);
    var after := EndSpace(TrimStart(s));
    WalkQuiet(before, 0);
    WalkAppend(before, TrimStart(s), 0);
    WalkQuiet(after, 0);
    WalkAppend(Trim(s), after, 0);
  }

  lemma TrimNothing(s: string)
    requires s != [] && !IsSpace(s[0]) && !IsSpace(s[|s| - 1])
    ensures Trim(s) == s
  {
  }

  // ---------------------------------------------------------------------------
  // A printed type is one item
  // ---------------------------------------------------------------------------

  lemma {:induction false} JoinInside(parts: seq<string>)
    requires parts != [] && forall i :: 0 <= i < |parts| ==> Item(parts[i])
    ensures Walk(Join(parts), 1) == Some(1)
  {
    WalkDeeper(parts[0], 0);
    if |parts| > 1 {
      JoinInside(parts[1..]);
      WalkAppend(parts[0], ",", 1);
      WalkAppend(parts[0] + ",", Join(parts[1..]), 1);
    }
  }

  lemma Bracketed(head: string, body: string)
    requires AllPlain(head) && Walk(body, 1) == Some(1)
    ensures Item(head + "<" + body + ">")
  {
    WalkQuiet(head, 0);
    WalkAppend(head, "<", 0);
    WalkAppend(head + "<", body, 0);
    WalkAppend(head + "<" + body, ">", 0);
  }

  lemma VectorItem(inner: string)
    requires Item(inner)
    ensures Item(VECTOR + inner + ">")
  {
    WalkDeeper(inner, 0);
    assert VECTOR == "vector" + "<";
    Bracketed("vector", inner);
  }

  lemma StructItem(head: string, parts: seq<string>)
    requires AllPlain(head) && parts != [] && forall i :: 0 <= i < |parts| ==> Item(parts[i])
    ensures Item(head + "<" + Join(parts) + ">")
  {
    JoinInside(parts);
    Bracketed(head, Join(parts));
  }

  lemma {:induction false} PrintedIsItem(ty: Type, text: string)
    requires WellFormed(ty) && Prints(ty, text)
    ensures Item(text)
    decreases ty, 1
  {
    match ty {
      case Primitive(name) => WalkQuiet(name, 0);
      case Vector(element) =>
        var inner :| Trim(text) == VECTOR + inner + ">" && Prints(element, inner);
        PrintedIsItem(element, inner);
        VectorItem(inner);
      case Struct(_, _, _, args) => StructIsItem(ty, text);
    }
    TrimItem(text);
  }

  lemma {:induction false} StructIsItem(ty: Type, text: string)
    requires WellFormed(ty) && Prints(ty, text) && ty.Struct?
    ensures Item(Trim(text))
    decreases ty, 0
  {
    HeadShape(ty);
    if ty.args == [] {
      WalkQuiet(Head(ty), 0);
    } else {
      var parts: seq<string> :|
        |parts| == |ty.args| && Trim(text) == Head(ty) + "<" + Join(parts) + ">" && forall i :: 0 <= i < |parts| ==> Prints(ty.args[i], parts[i]);
      forall i | 0 <= i < |parts| ensures Item(parts[i]) { PrintedIsItem(ty.args[i], parts[i]); }
      StructItem(Head(ty), parts);
    }
  }

  // ---------------------------------------------------------------------------
  // Shapes of a trimmed text
  // ---------------------------------------------------------------------------

  lemma FirstBracketAt(head: string, tail: string)
    requires AllPlain(head) && (tail == "" || tail[0] == '<')
    ensures FirstBracket(head + tail) == |head|
  {
    var t := head + tail;
    assert forall k :: 0 <= k < |head| ==> t[k] == head[k];
    assert tail != "" ==> t[|head|] == tail[0];
  }

  lemma PrimitiveShape(t: string)
    requires IsPrimitive(t)
    ensures t != [] && AllPlain(t) && t[0] != '0' && !IsVectorText(t)
  {
  }

  lemma StartsLikeAnAddress(t: string)
    requires t != [] && t[0] == '0'
    ensures !IsPrimitive(t) && !IsVectorText(t)
  {
  }

  lemma Cut(head: string, body: string)
    ensures var t := head + "<" + body + ">";
      t[..|head|] == head && t[|t| - 1] == '>' && t[|head| + 1..|t| - 1] == body && t == head + ("<" + body + ">")
  {
  }

  /** What `isMoveType` sees of a struct's text. */
  lemma StructShape(ty: Type, t: string, body: string)
    requires ty.Struct? && WellFormed(ty)
    requires t == Head(ty) + "<" + body + ">"
    ensures !IsPrimitive(t) && !IsVectorText(t) && FirstBracket(t) == |Head(ty)| < |t|
    ensures t[..|Head(ty)|] == Head(ty) && t[|t| - 1] == '>' && t[|Head(ty)| + 1..|t| - 1] == body
  {
    var head := Head(ty);
    HeadShape(ty);
    Cut(head, body);
    FirstBracketAt(head, "<" + body + ">");
    StartsLikeAnAddress(t);
  }

  lemma BareShape(ty: Type)
    requires ty.Struct? && WellFormed(ty)
    ensures !IsPrimitive(Head(ty)) && !IsVectorText(Head(ty)) && FirstBracket(Head(ty)) == |Head(ty)|
    ensures Head(ty)[..|Head(ty)|] == Head(ty)
  {
    HeadShape(ty);
    assert Head(ty) + "" == Head(ty);
    FirstBracketAt(Head(ty), "");
  }

  lemma VectorShape(t: string, inner: string)
    requires t == VECTOR + inner + ">"
    ensures IsVectorText(t) && !IsPrimitive(t) && t[7..|t| - 1] == inner && t[0] == 'v'
  {
    assert t[6] == '<';
  }

  // ---------------------------------------------------------------------------
  // isMoveType accepts exactly the printed types
  // ---------------------------------------------------------------------------

  lemma {:induction false} Complete(ty: Type, text: string, typeArgument: bool)
    requires WellFormed(ty) && Prints(ty, text) && (typeArgument || ty.Struct?)
    ensures IsMoveType(text, typeArgument)
    decreases ty
  {
    var t := Trim(text);
    match ty {
      case Primitive(name) =>
      case Vector(element) =>
        var inner :| t == VECTOR + inner + ">" && Prints(element, inner);
        VectorShape(t, inner);
        Complete(element, inner, true);
      case Struct(_, _, _, args) =>
        HeadShape(ty);
        if args == [] {
          BareShape(ty);
        } else {
          var parts: seq<string> :|
            |parts| == |args| && t == Head(ty) + "<" + Join(parts) + ">" && forall i :: 0 <= i < |args| ==> Prints(args[i], parts[i]);
          StructShape(ty, t, Join(parts));
          forall i | 0 <= i < |parts| ensures Item(parts[i]) && IsMoveType(parts[i], true) {
            PrintedIsItem(args[i], parts[i]);
            Complete(args[i], parts[i], true);
          }
          SplitOfJoin(parts);
        }
    }
  }

  lemma Uncut(t: string, lt: nat)
    requires lt < |t| - 1 && t[lt] == '<' && t[|t| - 1] == '>'
    ensures t == t[..lt] + "<" + t[lt + 1..|t| - 1] + ">"
  {
  }

  lemma {:induction false} Sound(text: string, typeArgument: bool) returns (ty: Type)
    requires IsMoveType(text, typeArgument)
    ensures WellFormed(ty) && Prints(ty, text) && (typeArgument || ty.Struct?)
    decreases |text|, 1
  {
    var t := Trim(text);
    if typeArgument && IsPrimitive(t) {
      ty := Primitive(t);
    } else if typeArgument && IsVectorText(t) {
      var element := Sound(t[7..|t| - 1], true);
      ty := Vector(element);
      PrintsVector(element, text);
    } else {
      ty := SoundStruct(text, typeArgument);
    }
  }

  lemma PrintsVector(element: Type, text: string)
    requires IsVectorText(Trim(text)) && Prints(element, Trim(text)[7..|Trim(text)| - 1])
    ensures Prints(Vector(element), text)
  {
    var t := Trim(text);
    assert t == VECTOR + t[7..|t| - 1] + ">";
  }

  lemma {:induction false} SoundStruct(text: string, typeArgument: bool) returns (ty: Type)
    requires IsMoveType(text, typeArgument)
    requires typeArgument ==> !IsPrimitive(Trim(text)) && !IsVectorText(Trim(text))
    ensures WellFormed(ty) && Prints(ty, text) && ty.Struct?
    decreases |text|, 0
  {
    var t := Trim(text);
    var lt := FirstBracket(t);
    ty := PathShape(t[..lt]);
    if lt == |t| {
      assert t[..lt] == t;
    } else {
      Uncut(t, lt);
      var body := t[lt + 1..|t| - 1];
      var parts := Split(body, 0).value;
      SplitExact(body);
      PartsAreShorter(body);
      var args := SoundAll(parts, |text|);
      ty := ty.(args := args);
    }
  }

  lemma {:induction false} SoundAll(parts: seq<string>, bound: nat) returns (args: seq<Type>)
    requires forall i :: 0 <= i < |parts| ==> |parts[i]| < bound && IsMoveType(parts[i], true)
    ensures |args| == |parts| && forall i :: 0 <= i < |args| ==> WellFormed(args[i]) && Prints(args[i], parts[i])
    decreases bound, -1, |parts|
  {
    if parts == [] {
      args := [];
    } else {
      var first := Sound(parts[0], true);
      var rest := SoundAll(parts[1..], bound);
      args := [first] + rest;
    }
  }

  /** `ty` is a type that `text` prints; anywhere but in a type argument it must be a struct. */
  ghost predicate IsTypeOf(ty: Type, text: string, typeArgument: bool) {
    WellFormed(ty) && Prints(ty, text) && (typeArgument || ty.Struct?)
  }

  /** The recogniser accepts exactly the strings that print some well-formed type. */
  lemma Recognises(text: string, typeArgument: bool)
    ensures IsMoveType(text, typeArgument) <==> exists ty :: IsTypeOf(ty, text, typeArgument)
  {
    if IsMoveType(text, typeArgument) {
      var ty := Sound(text, typeArgument);
      assert IsTypeOf(ty, text, typeArgument);
    }
    forall ty | IsTypeOf(ty, text, typeArgument) ensures IsMoveType(text, typeArgument) {
      Complete(ty, text, typeArgument);
    }
  }

  /** An accepted string prints one type only. */
  lemma {:induction false} Unambiguous(ty: Type, other: Type, text: string)
    requires WellFormed(ty) && Prints(ty, text)
    requires WellFormed(other) && Prints(other, text)
    ensures ty == other
    decreases ty, 1
  {
    Kind(ty, text);
    Kind(other, text);
    match ty {
      case Primitive(name) =>
      case Vector(element) => OneVector(ty, other, text);
      case Struct(_, _, _, args) => OneStruct(ty, other, text);
    }
  }

  lemma {:induction false} OneVector(ty: Type, other: Type, text: string)
    requires WellFormed(ty) && Prints(ty, text) && ty.Vector?
    requires WellFormed(other) && Prints(other, text) && other.Vector?
    ensures ty == other
    decreases ty, 0
  {
    var t := Trim(text);
    var inner :| t == VECTOR + inner + ">" && Prints(ty.element, inner);
    var inner' :| t == VECTOR + inner' + ">" && Prints(other.element, inner');
    VectorShape(t, inner);
    VectorShape(t, inner');
    Unambiguous(ty.element, other.element, inner);
  }

  lemma {:induction false} OneStruct(ty: Type, other: Type, text: string)
    requires WellFormed(ty) && Prints(ty, text) && ty.Struct?
    requires WellFormed(other) && Prints(other, text) && other.Struct?
    requires Head(ty) == Head(other) && (ty.args == [] <==> other.args == [])
    ensures ty == other
    decreases ty, 0
  {
    HeadShape(ty);
    HeadShape(other);
    if ty.args != [] {
      var parts := ArgumentTexts(ty, text);
      var parts' := ArgumentTexts(other, text);
      forall i | 0 <= i < |ty.args| ensures ty.args[i] == other.args[i] { Unambiguous(ty.args[i], other.args[i], parts[i]); }
      assert ty.args == other.args;
    }
  }

  /** The text alone decides the constructor, a struct's head and whether it has arguments. */
  lemma Kind(ty: Type, text: string)
    requires WellFormed(ty) && Prints(ty, text)
    ensures var t := Trim(text);
      match ty
      case Primitive(_) => IsPrimitive(t)
      case Vector(_) => !IsPrimitive(t) && IsVectorText(t)
      case Struct(_, _, _, args) =>
        !IsPrimitive(t) && !IsVectorText(t) && t[..FirstBracket(t)] == Head(ty) && (args == [] <==> FirstBracket(t) == |t|)
  {
    var t := Trim(text);
    match ty {
      case Primitive(_) =>
      case Vector(element) =>
        var inner :| t == VECTOR + inner + ">" && Prints(element, inner);
        VectorShape(t, inner);
      case Struct(_, _, _, args) =>
        if args == [] {
          BareShape(ty);
        } else {
          var parts: seq<string> :|
            |parts| == |args| && t == Head(ty) + "<" + Join(parts) + ">" && forall i :: 0 <= i < |args| ==> Prints(args[i], parts[i]);
          StructShape(ty, t, Join(parts));
        }
    }
  }

  lemma ArgumentTexts(ty: Type, text: string) returns (parts: seq<string>)
    requires WellFormed(ty) && Prints(ty, text) && ty.Struct? && ty.args != []
    ensures |parts| == |ty.args| && forall i :: 0 <= i < |parts| ==> Prints(ty.args[i], parts[i])
    ensures var t := Trim(text); FirstBracket(t) < |t| - 1 && Split(t[FirstBracket(t) + 1..|t| - 1], 0) == Some(parts)
  {
    var t := Trim(text);
    parts :| |parts| == |ty.args| && t == Head(ty) + "<" + Join(parts) + ">" && forall i :: 0 <= i < |ty.args| ==> Prints(ty.args[i], parts[i]);
    StructShape(ty, t, Join(parts));
    forall i | 0 <= i < |parts| ensures Item(parts[i]) { PrintedIsItem(ty.args[i], parts[i]); }
    SplitOfJoin(parts);
  }

  // ---------------------------------------------------------------------------
  // Printing
  // ---------------------------------------------------------------------------

  /** The type's text without white space. */
  function Print(ty: Type): string {
    match ty
    case Primitive(name) => name
    case Vector(element) => VECTOR + Print(element) + ">"
    case Struct(_, _, _, args) => if args == [] then Head(ty) else Head(ty) + "<" + Join(PrintAll(args)) + ">"
  }

  function PrintAll(args: seq<Type>): (parts: seq<string>)
    ensures |parts| == |args| && forall i :: 0 <= i < |args| ==> parts[i] == Print(args[i])
  {
    if args == [] then [] else [Print(args[0])] + PrintAll(args[1..])
  }

  lemma {:induction false} PrintPrints(ty: Type)
    requires WellFormed(ty)
    ensures Prints(ty, Print(ty))
  {
    var text := Print(ty);
    match ty {
      case Primitive(name) =>
        PrimitiveShape(name);
        TrimNothing(name);
      case Vector(element) =>
        PrintPrints(element);
        TrimNothing(text);
      case Struct(_, _, _, args) =>
        HeadShape(ty);
        TrimNothing(text);
        if args != [] {
          var parts := PrintAll(args);
          forall i | 0 <= i < |args| ensures Prints(args[i], parts[i]) { PrintPrints(args[i]); }
        }
    }
  }

  /** Round trip: every printed type is accepted, and reading it back can only give that type. */
  lemma PrintRoundTrip(ty: Type, other: Type)
    requires WellFormed(ty) && WellFormed(other)
    ensures IsMoveType(Print(ty), true)
    ensures Prints(other, Print(ty)) ==> other == ty
  {
    PrintPrints(ty);
    Complete(ty, Print(ty), true);
    if Prints(other, Print(ty)) {
      Unambiguous(ty, other, Print(ty));
    }
  }
}
