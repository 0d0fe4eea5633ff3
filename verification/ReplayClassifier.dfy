/**
 * The classifier: a walk over a query's syntax that accepts it or not and, if
 * it does, says which of its paths may not be null.
 */
module ReplayClassifier {
  import opened Wrappers
  import opened GraphqlQuery
  import opened FragmentCycles
  import opened ReplayRules

  type Path = seq<Name>

  /** The classifier's yes: the paths that may not be null, and the highest bound of any root field. */
  datatype Read = Read(required: seq<Path>, bound: Option<nat>)

  /** Where a selection stands: at the operation's root, or in a scope. */
  datatype Place = Root | In(scope: Scope)

  // ---------------------------------------------------------------------------
  // The analysis of an inlined query
  // ---------------------------------------------------------------------------

  function ArgsOf(f: Tree, vars: Vars): Args
    requires f.Leafed?
  {
    FieldsOf(f.args, vars)
  }

  /** A lookup of one version in a package's lineage. */
  predicate IsPackageAt(place: Place, name: Name) {
    name == PackageAt && (place == In(Code) || place == In(Lineage))
  }

  /** A version lookup fixed once it exists. */
  predicate PinnedPackageAt(args: Args) {
    Given(Get(args, Version)) && !Given(Get(args, Checkpoint))
  }

  /** The place of the selections under field `name`, or none when the field is not fixed. */
  function Below(setting: Setting, place: Place, name: Name, args: Args): Option<Place> {
    match place
    case Root =>
      var rule := RootRule(setting, name, args);
      if rule.None? then None else Some(In(rule.value.scope))
    case In(scope) =>
      if IsPackageAt(place, name) then if PinnedPackageAt(args) then Some(In(Code)) else None
      else if Allowed(setting, scope, name) then Some(In(if name == PackageAt then Code else ChildScope(scope, name)))
      else None
  }

  /** Root fields and version lookups must be present in the answer. */
  predicate MustBePresent(place: Place, name: Name) {
    place.Root? || IsPackageAt(place, name)
  }

  function Under(key: Name, paths: seq<Path>): seq<Path> {
    seq(|paths|, i requires 0 <= i < |paths| => [key] + paths[i])
  }

  /** The required response paths of one selection set, or none when some field of it is not fixed. */
  function SetPaths(setting: Setting, vars: Vars, place: Place, ts: seq<Tree>): Option<seq<Path>>
    decreases ts, 0
  {
    if ts == [] then Some([])
    else
      var first := TreePaths(setting, vars, place, ts[0]);
      var rest := SetPaths(setting, vars, place, ts[1..]);
      if first.None? || rest.None? then None else Some(first.value + rest.value)
  }

  function TreePaths(setting: Setting, vars: Vars, place: Place, t: Tree): Option<seq<Path>>
    decreases t, 1
  {
    match t
    case Group(_, _, _, sub) => SetPaths(setting, vars, place, sub)
    case Leafed(name, key, args, _, sub) =>
      if place.Root? && name == Typename then Some([])
      else
        var below := Below(setting, place, name, FieldsOf(args, vars));
        if below.None? then None
        else
          var inner := SetPaths(setting, vars, below.value, sub);
          if inner.None? then None
          else Some((if MustBePresent(place, name) then [[key]] else []) + Under(key, inner.value))
  }

  /** The checkpoint bounds of the root fields. */
  function Bounds(setting: Setting, vars: Vars, ts: seq<Tree>): seq<nat>
    decreases ts, 0
  {
    if ts == [] then [] else TreeBounds(setting, vars, ts[0]) + Bounds(setting, vars, ts[1..])
  }

  function TreeBounds(setting: Setting, vars: Vars, t: Tree): seq<nat>
    decreases t, 1
  {
    match t
    case Group(_, _, _, sub) => Bounds(setting, vars, sub)
    case Leafed(name, _, args, _, _) =>
      var rule := RootRule(setting, name, FieldsOf(args, vars));
      if name == Typename || rule.None? || rule.value.bound.None? then [] else [rule.value.bound.value]
  }

  function Greatest(bounds: seq<nat>): Option<nat> {
    if bounds == [] then None
    else
      var rest := Greatest(bounds[1..]);
      Some(if rest.None? then bounds[0] else Max(bounds[0], rest.value))
  }

  lemma {:induction false} GreatestCovers(bounds: seq<nat>, b: nat)
    requires b in bounds
    ensures Greatest(bounds).Some? && b <= Greatest(bounds).value
  {
    if b in bounds[1..] { GreatestCovers(bounds[1..], b); }
  }

  /** The verdict on an inlined query. */
  function ClassifyTree(setting: Setting, vars: Vars, ts: seq<Tree>): Option<Read> {
    var required := SetPaths(setting, vars, Root, ts);
    if required.None? || required.value == [] then None
    else Some(Read(required.value, Greatest(Bounds(setting, vars, ts))))
  }

  /** The verdict on a document: that on its inlining, and none when it has none. */
  function Classify(setting: Setting, doc: Document, vars: Vars): Option<Read> {
    var inlined := InlineDocument(doc);
    if inlined.None? then None else ClassifyTree(setting, vars, inlined.value)
  }

  // ---------------------------------------------------------------------------
  // The walk over the document as written
  // ---------------------------------------------------------------------------

  /** `paths`, each below `path`. */
  function Beneath(path: Path, paths: seq<Path>): seq<Path> {
    seq(|paths|, i requires 0 <= i < |paths| => path + paths[i])
  }

  lemma BeneathAppend(path: Path, a: seq<Path>, b: seq<Path>)
    ensures Beneath(path, a + b) == Beneath(path, a) + Beneath(path, b)
  {
  }

  lemma BeneathUnder(path: Path, key: Name, paths: seq<Path>)
    ensures Beneath(path, Under(key, paths)) == Beneath(path + [key], paths)
  {
    forall i | 0 <= i < |paths| ensures Beneath(path, Under(key, paths))[i] == Beneath(path + [key], paths)[i] {
      assert path + ([key] + paths[i]) == path + [key] + paths[i];
    }
  }

  /** Pushing a field's own paths and then those beneath it pushes the field's paths. */
  lemma FieldPaths(before: seq<Path>, path: Path, key: Name, own: seq<Path>, inner: seq<Path>)
    ensures before + Beneath(path, own) + Beneath(path + [key], inner) == before + Beneath(path, own + Under(key, inner))
  {
    BeneathUnder(path, key, inner);
    BeneathAppend(path, own, Under(key, inner));
  }

  lemma BeneathNothing(paths: seq<Path>)
    ensures Beneath([], paths) == paths
  {
    forall i | 0 <= i < |paths| ensures Beneath([], paths)[i] == paths[i] {
      assert [] + paths[i] == paths[i];
    }
  }

  /** The required paths of `sels`, through fragments; none when a spread cannot be followed or a field is not fixed. */
  function WalkPaths(setting: Setting, vars: Vars, fragments: Fragments, sels: seq<Selection>, seen: set<string>, place: Place): Option<seq<Path>> {
    var inlined := Inline(fragments, sels, seen, place.Root?);
    if inlined.None? then None else SetPaths(setting, vars, place, inlined.value)
  }

  function WalkOne(setting: Setting, vars: Vars, fragments: Fragments, sel: Selection, seen: set<string>, place: Place): Option<seq<Path>> {
    var inlined := InlineOne(fragments, sel, seen, place.Root?);
    if inlined.None? then None else TreePaths(setting, vars, place, inlined.value)
  }

  /** The bounds of the root fields in `sels`, through fragments. */
  function WalkBounds(setting: Setting, vars: Vars, fragments: Fragments, sels: seq<Selection>, seen: set<string>): seq<nat> {
    var inlined := Inline(fragments, sels, seen, true);
    if inlined.None? then [] else Bounds(setting, vars, inlined.value)
  }

  function OneBounds(setting: Setting, vars: Vars, fragments: Fragments, sel: Selection, seen: set<string>): seq<nat> {
    var inlined := InlineOne(fragments, sel, seen, true);
    if inlined.None? then [] else TreeBounds(setting, vars, inlined.value)
  }

  function Both(a: Option<seq<Path>>, b: Option<seq<Path>>): Option<seq<Path>> {
    if a.None? || b.None? then None else Some(a.value + b.value)
  }

  lemma WalkStep(setting: Setting, vars: Vars, fragments: Fragments, sels: seq<Selection>, seen: set<string>, place: Place)
    requires sels != []
    ensures WalkPaths(setting, vars, fragments, sels, seen, place)
            == Both(WalkOne(setting, vars, fragments, sels[0], seen, place), WalkPaths(setting, vars, fragments, sels[1..], seen, place))
    ensures place.Root? && WalkPaths(setting, vars, fragments, sels, seen, place).Some? ==>
            WalkBounds(setting, vars, fragments, sels, seen)
            == OneBounds(setting, vars, fragments, sels[0], seen) + WalkBounds(setting, vars, fragments, sels[1..], seen)
  {
    var first := InlineOne(fragments, sels[0], seen, place.Root?);
    var rest := Inline(fragments, sels[1..], seen, place.Root?);
    if first.Some? && rest.Some? {
      var ts := [first.value] + rest.value;
      assert ts[0] == first.value && ts[1..] == rest.value;
    }
  }

  /** The walk is `done` on a prefix of the selections, with `left` still to go. */
  ghost predicate Progress(whole: Option<seq<Path>>, done: seq<Path>, left: Option<seq<Path>>) {
    whole == Both(Some(done), left)
  }

  lemma Begin(whole: Option<seq<Path>>)
    ensures Progress(whole, [], whole)
  {
    if whole.Some? {
      assert [] + whole.value == whole.value;
    }
  }

  /** A field's paths: its own, when it must be present, before those beneath it. */
  lemma WalkField(setting: Setting, vars: Vars, fragments: Fragments, sel: Selection, seen: set<string>, place: Place)
    requires sel.Field? && !(place.Root? && sel.name == Typename)
    ensures var below := Below(setting, place, sel.name, FieldsOf(sel.args, vars));
      && (below.None? ==> WalkOne(setting, vars, fragments, sel, seen, place).None?)
      && (below.Some? ==>
            var inner := WalkPaths(setting, vars, fragments, sel.sub, if place.Root? then {} else seen, below.value);
            var key := KeyOf(sel.name, sel.alias);
            WalkOne(setting, vars, fragments, sel, seen, place)
            == if inner.None? then None else Some((if MustBePresent(place, sel.name) then [[key]] else []) + Under(key, inner.value)))
  {
  }

  lemma WalkTypename(setting: Setting, vars: Vars, fragments: Fragments, sel: Selection, seen: set<string>)
    requires sel.Field? && sel.name == Typename
    ensures WalkOne(setting, vars, fragments, sel, seen, Root) == Some([])
    ensures OneBounds(setting, vars, fragments, sel, seen) == []
  {
  }

  lemma WalkRootBounds(setting: Setting, vars: Vars, fragments: Fragments, sel: Selection, seen: set<string>)
    requires sel.Field? && sel.name != Typename && WalkOne(setting, vars, fragments, sel, seen, Root).Some?
    ensures var rule := RootRule(setting, sel.name, FieldsOf(sel.args, vars));
      rule.Some? && OneBounds(setting, vars, fragments, sel, seen) == if rule.value.bound.Some? then [rule.value.bound.value] else []
  {
  }

  /** A fragment, inline or spread, contributes what its selections do. */
  lemma WalkFragment(setting: Setting, vars: Vars, fragments: Fragments, sel: Selection, seen: set<string>, place: Place)
    requires !sel.Field?
    ensures sel.InlineFragment? ==>
      && WalkOne(setting, vars, fragments, sel, seen, place) == WalkPaths(setting, vars, fragments, sel.sub, seen, place)
      && (place.Root? ==> OneBounds(setting, vars, fragments, sel, seen) == WalkBounds(setting, vars, fragments, sel.sub, seen))
    ensures sel.Spread? && (sel.fragment !in fragments || sel.fragment in seen) ==>
      WalkOne(setting, vars, fragments, sel, seen, place).None?
    ensures sel.Spread? && sel.fragment in fragments && sel.fragment !in seen ==>
      var body := fragments[sel.fragment].sub;
      && WalkOne(setting, vars, fragments, sel, seen, place) == WalkPaths(setting, vars, fragments, body, seen + {sel.fragment}, place)
      && (place.Root? ==> OneBounds(setting, vars, fragments, sel, seen) == WalkBounds(setting, vars, fragments, body, seen + {sel.fragment}))
  {
  }

  lemma Advance(whole: Option<seq<Path>>, done: seq<Path>, first: Option<seq<Path>>, rest: Option<seq<Path>>)
    requires Progress(whole, done, Both(first, rest))
    ensures first.None? ==> whole.None?
    ensures first.Some? ==> Progress(whole, done + first.value, rest)
  {
    if first.Some? && rest.Some? {
      assert done + (first.value + rest.value) == done + first.value + rest.value;
    }
  }

  /** What a root field adds: its own path and those beneath it. */
  lemma RootFieldPaths(before: seq<Path>, key: Name, inner: seq<Path>)
    ensures before + [[key]] + Beneath([key], inner) == before + ([[key]] + Under(key, inner))
  {
    BeneathUnder([], key, inner);
    BeneathNothing(Under(key, inner));
    assert [] + [key] == [key];
  }

  class Classifier {
    const setting: Setting
    const vars: Vars
    const fragments: Fragments
    var required: seq<Path>
    var bounds: seq<nat>

    constructor (setting: Setting, vars: Vars, fragments: Fragments)
      ensures this.setting == setting && this.vars == vars && this.fragments == fragments
      ensures required == [] && bounds == []
    {
      this.setting, this.vars, this.fragments := setting, vars, fragments;
      required, bounds := [], [];
    }

    /**
     * Whether every field under `sels`, through fragments, is fixed in its
     * scope. The paths of the answer that must be present are pushed on the way.
     */
    method Fixed(sels: seq<Selection>, scope: Scope, path: Path, seen: set<string>) returns (ok: bool)
      modifies `required
      ensures ok == WalkPaths(setting, vars, fragments, sels, seen, In(scope)).Some?
      ensures ok ==> required == old(required) + Beneath(path, WalkPaths(setting, vars, fragments, sels, seen, In(scope)).value)
      decreases |fragments.Keys - seen|, sels, 1
    {
      ghost var whole := WalkPaths(setting, vars, fragments, sels, seen, In(scope));
      ghost var done: seq<Path> := [];
      var i := 0;
      assert sels[0..] == sels;
      Begin(whole);
      while i < |sels|
        invariant i <= |sels|
        invariant Progress(whole, done, WalkPaths(setting, vars, fragments, sels[i..], seen, In(scope)))
        invariant required == old(required) + Beneath(path, done)
      {
        WalkStep(setting, vars, fragments, sels[i..], seen, In(scope));
        ghost var first := WalkOne(setting, vars, fragments, sels[i], seen, In(scope));
        assert sels[i..][1..] == sels[i + 1..];
        Advance(whole, done, first, WalkPaths(setting, vars, fragments, sels[i + 1..], seen, In(scope)));
        var fine := FixedOne(sels[i], scope, path, seen);
        if !fine {
          return false;
        }
        BeneathAppend(path, done, first.value);
        done := done + first.value;
        i := i + 1;
      }
      ok := true;
    }

    /** One selection of `Fixed`. */
    method FixedOne(sel: Selection, scope: Scope, path: Path, seen: set<string>) returns (ok: bool)
      modifies `required
      ensures ok == WalkOne(setting, vars, fragments, sel, seen, In(scope)).Some?
      ensures ok ==> required == old(required) + Beneath(path, WalkOne(setting, vars, fragments, sel, seen, In(scope)).value)
      decreases |fragments.Keys - seen|, sel, 1
    {
      match sel {
        case Field(name, alias, args, _, sub) =>
          ok := FixedField(sel, scope, path, seen);
        case InlineFragment(_, _, sub) =>
          WalkFragment(setting, vars, fragments, sel, seen, In(scope));
          ok := Fixed(sub, scope, path, seen);
        case Spread(f, _) =>
          WalkFragment(setting, vars, fragments, sel, seen, In(scope));
          if f !in fragments || f in seen {
            return false;
          }
          SeenGrows(fragments, seen, f);
          ok := Fixed(fragments[f].sub, scope, path, seen + {f});
      }
    }

    /** One field of `Fixed`. */
    method FixedField(sel: Selection, scope: Scope, path: Path, seen: set<string>) returns (ok: bool)
      requires sel.Field?
      modifies `required
      ensures ok == WalkOne(setting, vars, fragments, sel, seen, In(scope)).Some?
      ensures ok ==> required == old(required) + Beneath(path, WalkOne(setting, vars, fragments, sel, seen, In(scope)).value)
      decreases |fragments.Keys - seen|, sel, 0
    {
      var key := if sel.alias.Some? then sel.alias.value else sel.name;
      var at := path + [key];
      WalkField(setting, vars, fragments, sel, seen, In(scope));
      ghost var own: seq<Path> := [];
      if sel.name == PackageAt && (scope == Code || scope == Lineage) {
        var values := FieldsOf(sel.args, vars);
        if !Given(Get(values, Version)) || Given(Get(values, Checkpoint)) {
          return false;
        }
        required := required + [at];
        own := [[key]];
      } else if !Allowed(setting, scope, sel.name) {
        return false;
      }
      assert required == old(required) + Beneath(path, own);
      var child := if sel.name == PackageAt then Code else ChildScope(scope, sel.name);
      ok := Fixed(sel.sub, child, at, seen);
      if ok {
        ghost var inner := WalkPaths(setting, vars, fragments, sel.sub, seen, In(child)).value;
        FieldPaths(old(required), path, key, own, inner);
      }
    }

    /** The walk over the operation's own selections: root rules, their paths and their bounds. */
    method Collect(sels: seq<Selection>, seen: set<string>) returns (ok: bool)
      modifies this
      ensures ok == WalkPaths(setting, vars, fragments, sels, seen, Root).Some?
      ensures ok ==> required == old(required) + WalkPaths(setting, vars, fragments, sels, seen, Root).value
      ensures ok ==> bounds == old(bounds) + WalkBounds(setting, vars, fragments, sels, seen)
      decreases |fragments.Keys - seen|, sels, 1
    {
      ghost var whole := WalkPaths(setting, vars, fragments, sels, seen, Root);
      ghost var done: seq<Path> := [];
      ghost var doneBounds: seq<nat> := [];
      var i := 0;
      assert sels[0..] == sels;
      Begin(whole);
      while i < |sels|
        invariant i <= |sels|
        invariant Progress(whole, done, WalkPaths(setting, vars, fragments, sels[i..], seen, Root))
        invariant required == old(required) + done && bounds == old(bounds) + doneBounds
        invariant whole.Some? ==> WalkBounds(setting, vars, fragments, sels, seen)
                                  == doneBounds + WalkBounds(setting, vars, fragments, sels[i..], seen)
      {
        WalkStep(setting, vars, fragments, sels[i..], seen, Root);
        ghost var first := WalkOne(setting, vars, fragments, sels[i], seen, Root);
        assert sels[i..][1..] == sels[i + 1..];
        Advance(whole, done, first, WalkPaths(setting, vars, fragments, sels[i + 1..], seen, Root));
        var fine := CollectOne(sels[i], seen);
        if !fine {
          return false;
        }
        done := done + first.value;
        doneBounds := doneBounds + OneBounds(setting, vars, fragments, sels[i], seen);
        i := i + 1;
      }
      ok := true;
    }

    /** One selection of `Collect`. */
    method CollectOne(sel: Selection, seen: set<string>) returns (ok: bool)
      modifies this
      ensures ok == WalkOne(setting, vars, fragments, sel, seen, Root).Some?
      ensures ok ==> required == old(required) + WalkOne(setting, vars, fragments, sel, seen, Root).value
      ensures ok ==> bounds == old(bounds) + OneBounds(setting, vars, fragments, sel, seen)
      decreases |fragments.Keys - seen|, sel, 0
    {
      match sel {
        case InlineFragment(_, _, sub) =>
          WalkFragment(setting, vars, fragments, sel, seen, Root);
          ok := Collect(sub, seen);
        case Spread(f, _) =>
          WalkFragment(setting, vars, fragments, sel, seen, Root);
          if f !in fragments || f in seen {
            return false;
          }
          SeenGrows(fragments, seen, f);
          ok := Collect(fragments[f].sub, seen + {f});
        case Field(name, alias, args, _, sub) =>
          if name == Typename {
            WalkTypename(setting, vars, fragments, sel, seen);
            return true;
          }
          ok := CollectField(sel, seen);
      }
    }

    /** One root field other than `__typename`. */
    method CollectField(sel: Selection, seen: set<string>) returns (ok: bool)
      requires sel.Field? && sel.name != Typename
      modifies this
      ensures ok == WalkOne(setting, vars, fragments, sel, seen, Root).Some?
      ensures ok ==> required == old(required) + WalkOne(setting, vars, fragments, sel, seen, Root).value
      ensures ok ==> bounds == old(bounds) + OneBounds(setting, vars, fragments, sel, seen)
    {
      WalkField(setting, vars, fragments, sel, seen, Root);
      var rule := RootRule(setting, sel.name, FieldsOf(sel.args, vars));
      if rule.None? {
        return false;
      }
      var key := if sel.alias.Some? then sel.alias.value else sel.name;
      required := required + [[key]];
      if rule.value.bound.Some? {
        bounds := bounds + [rule.value.bound.value];
      }
      ok := Fixed(sel.sub, rule.value.scope, [key], {});
      if ok {
        RootFieldPaths(old(required), key, WalkPaths(setting, vars, fragments, sel.sub, {}, In(rule.value.scope)).value);
        WalkRootBounds(setting, vars, fragments, sel, seen);
      }
    }
  }

  /** `classifyGraphql` on a parsed document with one query operation: its verdict is that on the inlined query. */
  method ClassifyGraphql(setting: Setting, doc: Document, vars: Vars) returns (read: Option<Read>)
    ensures read == Classify(setting, doc, vars)
    ensures !(Defined(doc) && Acyclic(doc)) ==> read.None?
  {
    InlinesIffAcyclic(doc);
    var classifier := new Classifier(setting, vars, doc.fragments);
    var ok := classifier.Collect(doc.top, {});
    assert ok ==> classifier.required == WalkPaths(setting, vars, doc.fragments, doc.top, {}, Root).value;
    assert ok ==> classifier.bounds == WalkBounds(setting, vars, doc.fragments, doc.top, {});
    if !ok || classifier.required == [] {
      return None;
    }
    read := Some(Read(classifier.required, Greatest(classifier.bounds)));
  }
}
