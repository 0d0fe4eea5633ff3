/**
 * Small queries and small services, to build examples from. A query for the
 * digest of one root field is written out with what it inlines to, how it is
 * classified and how it is answered. A late service answers some lookups with
 * one thing at the first moment and with an object from then on, and is
 * faithful when none of those lookups had promised to stay.
 */
module ReplayExamples {
  import opened Wrappers
  import opened GraphqlQuery
  import opened ReplayRules
  import opened ReplayClassifier
  import opened GraphqlExecution
  import opened ReplayStability

  const ALWAYS := Conditions(None, None)

  // ---------------------------------------------------------------------------
  // Services
  // ---------------------------------------------------------------------------

  /**
   * At the first moment the lookups `late` find an old object, or nothing, and
   * the chain is `before` checkpoints long; from then on they, like all others
   * at any time, find a new one, and it is `after` long. Objects 0 and 1 are
   * data, 2 and 3 package versions, the odd ones new, and every field of an
   * object is a scalar.
   */
  function Late(late: (Kind, Arg) -> bool, found: bool, before: nat, after: nat, lag: nat): Chain {
    Chain(
      (t: nat, o: nat, name: Name, args: Args) => Leaf(JScalar(TextOf(o))),
      (t: nat, kind: Kind, key: Arg) => if !late(kind, key) || t > 0 then Node(NewOf(kind)) else if found then Node(OldOf(kind)) else Missing,
      (t, log) => [],
      (log, filter, row) => true,
      (log, args, matched) => Missing,
      (t, name, args) => Missing,
      o => "Object",
      (on, name) => true,
      o => if o < 2 then Record else Published,
      (t, o) => true,
      o => o,
      (t: nat) => if t == 0 then before else after,
      lag)
  }

  lemma LatePoint(late: (Kind, Arg) -> bool, found: bool, before: nat, after: nat, lag: nat, t: nat, kind: Kind, key: Arg)
    ensures Late(late, found, before, after, lag).point(t, kind, key)
         == if !late(kind, key) || t > 0 then Node(NewOf(kind)) else if found then Node(OldOf(kind)) else Missing
  {
  }

  function OldOf(kind: Kind): nat {
    if kind.PackageBy? then 2 else 0
  }

  function NewOf(kind: Kind): nat {
    OldOf(kind) + 1
  }

  function TextOf(o: nat): string {
    if o % 2 == 0 then "old" else "new"
  }

  /** A lookup that has promised nothing about what comes after the first moment. */
  predicate Unpromised(setting: Setting, kind: Kind, key: Arg, found: bool, before: nat, lag: nat) {
    && (found ==> !Immutable(kind, key) && !Newest(kind, key))
    && (kind.ObjectBy? && ObjectCheckpoint(setting, key).Some? ==> before < ObjectCheckpoint(setting, key).value + lag)
  }

  lemma LateFaithful(setting: Setting, late: (Kind, Arg) -> bool, found: bool, before: nat, after: nat, lag: nat)
    requires before <= after
    requires forall kind, key :: late(kind, key) ==> Unpromised(setting, kind, key, found, before, lag)
    ensures Faithful(setting, Late(late, found, before, after, lag))
  {
    forall t: nat, t': nat, kind, key ensures PointFixed(setting, Late(late, found, before, after, lag), t, t', kind, key) {
      if late(kind, key) {
        assert Unpromised(setting, kind, key, found, before, lag);
      }
      LatePointFixed(setting, late, found, before, after, lag, t, t', kind, key);
    }
  }

  lemma LatePointFixed(setting: Setting, late: (Kind, Arg) -> bool, found: bool, before: nat, after: nat, lag: nat, t: nat, t': nat, kind: Kind, key: Arg)
    requires late(kind, key) ==> Unpromised(setting, kind, key, found, before, lag)
    ensures PointFixed(setting, Late(late, found, before, after, lag), t, t', kind, key)
  {
    var ch := Late(late, found, before, after, lag);
    LatePoint(late, found, before, after, lag, t, kind, key);
    LatePoint(late, found, before, after, lag, t', kind, key);
    SameObject(ch, t, kind, OldOf(kind));
    SameObject(ch, t, kind, NewOf(kind));
  }

  /** A found object agrees with itself in the scope it is looked up in, and as the newest of its lineage. */
  lemma SameObject(ch: Chain, t: nat, kind: Kind, o: nat)
    requires IsLate(ch) && (o == OldOf(kind) || o == NewOf(kind))
    ensures Agree(ch, t, ScopeOf(kind), Node(o), Node(o)) && (kind.PackageBy? ==> Agree(ch, t, Lineage, Node(o), Node(o)))
  {
  }

  // ---------------------------------------------------------------------------
  // Queries
  // ---------------------------------------------------------------------------

  /** `{ name(args) { digest } }`, with defaults for its variables. */
  function DigestOf(name: Name, args: seq<Entry>, defaults: Vars): Document {
    Document(map[], defaults, [Field(name, None, args, ALWAYS, [Field(Digest, None, [], ALWAYS, [])])])
  }

  function DigestTree(): Tree {
    Leafed(Digest, Digest, [], ALWAYS, [])
  }

  function RootTree(name: Name, args: seq<Entry>): Tree {
    Leafed(name, name, args, ALWAYS, [DigestTree()])
  }

  lemma DigestInlines(name: Name, args: seq<Entry>, defaults: Vars)
    requires name != Typename
    ensures InlineDocument(DigestOf(name, args, defaults)) == Some([RootTree(name, args)])
  {
    var doc := DigestOf(name, args, defaults);
    var none: Fragments := map[];
    var below := doc.top[0].sub;
    assert below[1..] == [] && doc.top[1..] == [];
    assert Inline(none, [], {}, false) == Some([]) && Inline(none, [], {}, true) == Some([]);
    assert InlineOne(none, below[0], {}, false) == Some(DigestTree());
    assert [DigestTree()] + [] == [DigestTree()] && Inline(none, below, {}, false) == Some([DigestTree()]);
    assert InlineOne(none, doc.top[0], {}, true) == Some(RootTree(name, args));
    assert [RootTree(name, args)] + [] == [RootTree(name, args)];
  }

  /** The paths and bounds of a single selection are its own. */
  lemma {:induction false} OneSelection(setting: Setting, vars: Vars, place: Place, f: Tree)
    ensures SetPaths(setting, vars, place, [f]) == TreePaths(setting, vars, place, f)
    ensures place.Root? ==> Bounds(setting, vars, [f]) == TreeBounds(setting, vars, f)
  {
    assert [f][1..] == [] && SetPaths(setting, vars, place, []) == Some([]);
    var own := TreePaths(setting, vars, place, f);
    assert own.Some? ==> own.value + [] == own.value;
    assert Bounds(setting, vars, []) == [] && TreeBounds(setting, vars, f) + [] == TreeBounds(setting, vars, f);
  }

  lemma {:induction false} DigestPaths(setting: Setting, vars: Vars, scope: Scope)
    requires Allowed(setting, scope, Digest)
    ensures SetPaths(setting, vars, In(scope), [DigestTree()]) == Some([])
  {
    OneSelection(setting, vars, In(scope), DigestTree());
    var child := In(ChildScope(scope, Digest));
    assert Below(setting, In(scope), Digest, FieldsOf([], vars)) == Some(child) && !MustBePresent(In(scope), Digest);
    var none: seq<Path> := [];
    assert SetPaths(setting, vars, child, []) == Some(none) && Under(Digest, none) == none && none + none == none;
    assert TreePaths(setting, vars, In(scope), DigestTree()) == Some(none + Under(Digest, none));
  }

  lemma {:induction false} RootPaths(setting: Setting, vars: Vars, name: Name, args: seq<Entry>)
    requires name != Typename
    requires var rule := RootRule(setting, name, FieldsOf(args, vars)); rule.Some? ==> Allowed(setting, rule.value.scope, Digest)
    ensures var rule := RootRule(setting, name, FieldsOf(args, vars));
      SetPaths(setting, vars, Root, [RootTree(name, args)]) == if rule.None? then None else Some([[name]])
  {
    var f := RootTree(name, args);
    OneSelection(setting, vars, Root, f);
    var rule := RootRule(setting, name, FieldsOf(args, vars));
    if rule.Some? {
      DigestPaths(setting, vars, rule.value.scope);
      assert Under(name, []) == [] && [[name]] + [] == [[name]];
    }
  }

  /** The classifier's verdict on such a query is that of its root rule. */
  lemma {:induction false} DigestClassified(setting: Setting, name: Name, args: seq<Entry>, defaults: Vars, vars: Vars)
    requires name != Typename
    requires var rule := RootRule(setting, name, FieldsOf(args, vars)); rule.Some? ==> Allowed(setting, rule.value.scope, Digest)
    ensures var rule := RootRule(setting, name, FieldsOf(args, vars));
      Classify(setting, DigestOf(name, args, defaults), vars) == if rule.None? then None else Some(Read([[name]], rule.value.bound))
  {
    DigestInlines(name, args, defaults);
    RootPaths(setting, vars, name, args);
    OneSelection(setting, vars, Root, RootTree(name, args));
    var rule := RootRule(setting, name, FieldsOf(args, vars));
    if rule.Some? && rule.value.bound.Some? {
      assert Greatest([rule.value.bound.value]) == rule.value.bound;
    }
  }

  /** A query for the root's type name only has nothing to record. */
  lemma TypenameUnclassified(setting: Setting, args: seq<Entry>, defaults: Vars, vars: Vars)
    ensures Classify(setting, DigestOf(Typename, args, defaults), vars).None?
  {
    var doc := DigestOf(Typename, args, defaults);
    var f := Leafed(Typename, Typename, args, ALWAYS, []);
    assert doc.top[1..] == [] && Inline(map[], [], {}, true) == Some([]);
    assert InlineOne(map[], doc.top[0], {}, true) == Some(f);
    assert [f] + [] == [f] && InlineDocument(doc) == Some([f]);
    OneSelection(setting, vars, Root, f);
  }

  // ---------------------------------------------------------------------------
  // Answers
  // ---------------------------------------------------------------------------

  /** One shown field is collected and completed alone. */
  lemma OneFieldRuns(w: World, t: nat, site: Site, f: Tree)
    requires f.Leafed? && f.cond == ALWAYS
    ensures ExecSet(w, t, site, [f]) ==
            match Complete(w, t, Resolve(w, t, site, f), f.sub) case None => None case Some(json) => Some(JObject([Member(f.key, json)]))
  {
    CollectedAlone(w, site, f);
    assert KeysOf([f]) == [f.key] by {
      assert [f][1..] == [] && Without([], f.key) == [] && KeysOf([]) == [];
    }
    assert WithKey([f], f.key) == [f] by {
      assert [f][1..] == [] && WithKey([], f.key) == [];
    }
    assert Merged([f]) == f.sub by {
      assert [f][1..] == [] && Merged([]) == [] && f.sub + [] == f.sub;
    }
    FirstMember(w, t, site, [f], [f.key]);
    assert [f.key][1..] == [] && ExecKeys(w, t, site, [f], []) == Some([]);
    var value := Complete(w, t, Resolve(w, t, site, f), f.sub);
    if value.Some? {
      assert [Member(f.key, value.value)] + [] == [Member(f.key, value.value)];
    }
  }

  lemma CollectedAlone(w: World, site: Site, f: Tree)
    requires f.Leafed? && f.cond == ALWAYS
    ensures Collect(w, TypeOf(w, site), [f], {}).fields == [f]
  {
    var on := TypeOf(w, site);
    assert [f][1..] == [] && Collect(w, on, [], {}) == Collected([], {});
    assert CollectTree(w, on, f, {}) == Collected([f], {});
    assert [f] + [] == [f];
  }

  /** Nothing, an object, or a list of such. */
  predicate LookedUp(v: Answer) {
    match v
    case Missing => true
    case Leaf(_) => false
    case Node(_) => true
    case Many(items) => forall i :: 0 <= i < |items| ==> LookedUp(items[i])
  }

  /** An object is shown by its digest. */
  function DigestJson(v: Answer): Json
    decreases v
  {
    match v
    case Missing => JNull
    case Leaf(json) => json
    case Node(id) => JObject([Member(Digest, JScalar(TextOf(id)))])
    case Many(items) => JList(DigestsJson(items))
  }

  function DigestsJson(items: seq<Answer>): (all: seq<Json>)
    ensures |all| == |items| && forall i :: 0 <= i < |items| ==> all[i] == DigestJson(items[i])
    decreases items
  {
    if items == [] then [] else [DigestJson(items[0])] + DigestsJson(items[1..])
  }

  function DigestAnswer(name: Name, v: Answer): Json {
    JObject([Member(name, DigestJson(v))])
  }

  ghost predicate IsLate(ch: Chain) {
    exists late, found, before, after, lag :: ch == Late(late, found, before, after, lag)
  }

  lemma {:induction false} DigestCompleted(w: World, t: nat, v: Answer)
    requires IsLate(w.ch) && LookedUp(v)
    ensures Complete(w, t, v, [DigestTree()]) == Some(DigestJson(v))
    decreases v
  {
    var leaf := DigestTree();
    match v {
      case Missing =>
      case Leaf(_) =>
      case Node(id) =>
        OneFieldRuns(w, t, At(id), leaf);
        assert Resolve(w, t, At(id), leaf) == Leaf(JScalar(TextOf(id)));
      case Many(items) =>
        DigestsCompleted(w, t, items);
    }
  }

  lemma {:induction false} DigestsCompleted(w: World, t: nat, items: seq<Answer>)
    requires IsLate(w.ch) && forall i :: 0 <= i < |items| ==> LookedUp(items[i])
    ensures CompleteAll(w, t, items, [DigestTree()]) == Some(DigestsJson(items))
    decreases items
  {
    if items != [] {
      DigestCompleted(w, t, items[0]);
      DigestsCompleted(w, t, items[1..]);
    }
  }

  /** What such a query answers: its one field, completed. */
  lemma DigestRuns(setting: Setting, ch: Chain, t: nat, name: Name, args: seq<Entry>, defaults: Vars, vars: Vars)
    requires name != Typename
    ensures var doc := DigestOf(name, args, defaults);
      var w := World(setting, ch, Sent(doc, vars));
      Run(setting, ch, t, doc, vars)
      == match Complete(w, t, RootAnswer(setting, ch, t, name, FieldsOf(args, Sent(doc, vars))), [DigestTree()])
         case None => None
         case Some(json) => Some(JObject([Member(name, json)]))
  {
    var w := World(setting, ch, Sent(DigestOf(name, args, defaults), vars));
    DigestInlines(name, args, defaults);
    OneFieldRuns(w, t, QueryRoot, RootTree(name, args));
    assert Resolve(w, t, QueryRoot, RootTree(name, args)) == RootAnswer(setting, ch, t, name, FieldsOf(args, w.vars));
  }

  /** A late service answers such a query with the digests of what it looks up. */
  lemma DigestAnswered(setting: Setting, ch: Chain, t: nat, name: Name, args: seq<Entry>, defaults: Vars, vars: Vars)
    requires IsLate(ch) && name != Typename
    requires LookedUp(RootAnswer(setting, ch, t, name, FieldsOf(args, Sent(DigestOf(name, args, defaults), vars))))
    ensures var v := RootAnswer(setting, ch, t, name, FieldsOf(args, Sent(DigestOf(name, args, defaults), vars)));
      Run(setting, ch, t, DigestOf(name, args, defaults), vars) == Some(DigestAnswer(name, v))
  {
    var w := World(setting, ch, Sent(DigestOf(name, args, defaults), vars));
    DigestRuns(setting, ch, t, name, args, defaults, vars);
    DigestCompleted(w, t, RootAnswer(setting, ch, t, name, FieldsOf(args, w.vars)));
  }

  lemma {:induction false} OnlyMember(member: Member)
    ensures Present(JObject([member]), [member.key]) <==> Present(member.value, [])
  {
    var path := [member.key];
    assert path[0] == member.key && path[1..] == [];
    assert PresentIn([member], member.key, []) == PresentMember([member][0], []);
  }

  /** Such an answer is recordable when it found every object it looked up. */
  lemma {:induction false} DigestPresent(name: Name, v: Answer)
    requires LookedUp(v)
    ensures Present(DigestAnswer(name, v), [name]) <==> Found(v)
  {
    OnlyMember(DigestAnswer(name, v).members[0]);
    JsonPresent(v);
  }

  lemma {:induction false} JsonPresent(v: Answer)
    requires LookedUp(v)
    ensures Present(DigestJson(v), []) <==> Found(v)
    decreases v
  {
    if v.Many? {
      var items := DigestJson(v).items;
      forall i | 0 <= i < |v.items| ensures Present(items[i], []) <==> Found(v.items[i]) {
        JsonPresent(v.items[i]);
      }
    }
  }

  // ---------------------------------------------------------------------------
  // Arguments
  // ---------------------------------------------------------------------------

  lemma OneArg(name: Name, value: Value, vars: Vars)
    ensures FieldsOf([Entry(name, value)], vars) == map[name := ValueOf(value, vars)]
  {
    var entries := [Entry(name, value)];
    assert entries[1..] == [] && FieldsOf([], vars) == map[];
    assert map[name := ValueOf(value, vars)] + map[] == map[name := ValueOf(value, vars)];
  }

  lemma TwoArgs(name: Name, value: Value, other: Name, last: Value, vars: Vars)
    requires name != other
    ensures FieldsOf([Entry(name, value), Entry(other, last)], vars) == map[name := ValueOf(value, vars), other := ValueOf(last, vars)]
  {
    var entries := [Entry(name, value), Entry(other, last)];
    assert entries[1..] == [Entry(other, last)];
    OneArg(other, last, vars);
  }

  lemma ThreeArgs(name: Name, value: Value, other: Name, next: Value, third: Name, last: Value, vars: Vars)
    requires name != other && name != third && other != third
    ensures var args := FieldsOf([Entry(name, value), Entry(other, next), Entry(third, last)], vars);
      && Get(args, name) == ValueOf(value, vars) && Get(args, other) == ValueOf(next, vars) && Get(args, third) == ValueOf(last, vars)
      && forall n :: n != name && n != other && n != third ==> Get(args, n) == Undefined
  {
    var rest := [Entry(other, next), Entry(third, last)];
    TwoArgs(other, next, third, last, vars);
    FirstArg(Entry(name, value), rest, vars);
    assert [Entry(name, value)] + rest == [Entry(name, value), Entry(other, next), Entry(third, last)];
  }

  lemma FirstArg(entry: Entry, rest: seq<Entry>, vars: Vars)
    ensures FieldsOf([entry] + rest, vars) == map[entry.name := ValueOf(entry.value, vars)] + FieldsOf(rest, vars)
  {
    assert ([entry] + rest)[1..] == rest;
  }
}
