/** What defaults can change in a verdict. */
module ReplayDefaults {
  import opened GraphqlQuery
  import opened ReplayRules
  import opened ReplayClassifier

  // ---------------------------------------------------------------------------
  // Arguments
  // ---------------------------------------------------------------------------

  /** `b` is `a` with some of the variables that nobody gave filled in, at any depth. */
  predicate FilledIn(a: Arg, b: Arg)
    decreases a
  {
    match a
    case Undefined => true
    case Items(items) => b.Items? && |items| == |b.items| && forall i :: 0 <= i < |items| ==> FilledIn(items[i], b.items[i])
    case Fields(fields) => b.Fields? && fields.Keys == b.fields.Keys && forall name :: name in fields ==> FilledIn(fields[name], b.fields[name])
    case _ => b == a
  }

  lemma {:induction false} FilledInItself(a: Arg)
    ensures FilledIn(a, a)
    decreases a
  {
    match a
    case Items(items) => forall i | 0 <= i < |items| ensures FilledIn(items[i], items[i]) { FilledInItself(items[i]); }
    case Fields(fields) => forall name | name in fields ensures FilledIn(fields[name], fields[name]) { FilledInItself(fields[name]); }
    case _ =>
  }

  lemma {:induction false} ValueFilledIn(node: Value, vars: Vars, defaults: Vars)
    ensures FilledIn(ValueOf(node, vars), ValueOf(node, defaults + vars))
    decreases node, 1
  {
    match node
    case Variable(name) => FilledInItself(ValueOf(node, vars));
    case ListValue(values) => ValuesFilledIn(values, vars, defaults);
    case ObjectValue(fields) => FieldsFilledIn(fields, vars, defaults);
    case _ =>
  }

  lemma {:induction false} ValuesFilledIn(nodes: seq<Value>, vars: Vars, defaults: Vars)
    ensures FilledIn(Items(ValuesOf(nodes, vars)), Items(ValuesOf(nodes, defaults + vars)))
    decreases nodes, 0
  {
    if nodes != [] {
      ValueFilledIn(nodes[0], vars, defaults);
      ValuesFilledIn(nodes[1..], vars, defaults);
    }
  }

  lemma {:induction false} FieldsFilledIn(fields: seq<Entry>, vars: Vars, defaults: Vars)
    ensures FilledIn(Fields(FieldsOf(fields, vars)), Fields(FieldsOf(fields, defaults + vars)))
    decreases fields, 0
  {
    if fields != [] {
      EntryFilledIn(fields[0], vars, defaults);
      FieldsFilledIn(fields[1..], vars, defaults);
    }
  }

  lemma {:induction false} EntryFilledIn(entry: Entry, vars: Vars, defaults: Vars)
    ensures FilledIn(EntryValue(entry, vars), EntryValue(entry, defaults + vars))
    decreases entry, 2
  {
    ValueFilledIn(entry.value, vars, defaults);
  }

  lemma PropertyFilledIn(a: Arg, b: Arg, name: Name)
    requires FilledIn(a, b)
    ensures a.Fields? ==> FilledIn(Property(a, name), Property(b, name))
  {
  }

  /** What was given stays given, and a checkpoint the same checkpoint. */
  lemma GivenStays(setting: Setting, a: Arg, b: Arg)
    requires FilledIn(a, b)
    ensures Given(a) ==> Given(b)
    ensures AsCheckpoint(setting, a).Some? ==> AsCheckpoint(setting, b) == AsCheckpoint(setting, a)
  {
  }

  /** What is said of one property of an object stays said of it. */
  lemma PropertyStays(setting: Setting, a: Arg, b: Arg, name: Name)
    requires FilledIn(a, b)
    ensures Given(Property(a, name)) ==> Given(Property(b, name))
    ensures AsCheckpoint(setting, Property(a, name)).Some? ==> AsCheckpoint(setting, Property(b, name)) == AsCheckpoint(setting, Property(a, name))
  {
    if a.Fields? {
      PropertyFilledIn(a, b, name);
      GivenStays(setting, Property(a, name), Property(b, name));
    }
  }

  // ---------------------------------------------------------------------------
  // Root rules
  // ---------------------------------------------------------------------------

  /** The scopes that the answer of a root field, or of a version lookup, may have on the values given and on those sent. */
  predicate Nearer(seen: Scope, sent: Scope) {
    sent == seen || (seen == Lineage && sent == Code)
  }

  /** A filled-in filter that is still a range lets nothing through that the filter itself does not. */
  lemma WithinFilledIn(setting: Setting, seen: Arg, sent: Arg, checkpoint: nat)
    requires FilledIn(seen, sent) && Within(setting, sent, checkpoint)
    ensures Within(setting, seen, checkpoint)
  {
    PropertyStays(setting, seen, sent, AtCheckpoint);
    PropertyStays(setting, seen, sent, AfterCheckpoint);
    PropertyStays(setting, seen, sent, BeforeCheckpoint);
  }

  lemma RangeAsSent(setting: Setting, seen: Arg, sent: Arg)
    requires FilledIn(seen, sent) && RangeEnd(setting, seen).Some? && RangeEnd(setting, sent).Some?
    ensures RangeEnd(setting, sent).value <= RangeEnd(setting, seen).value
  {
    PropertyStays(setting, seen, sent, AtCheckpoint);
    PropertyStays(setting, seen, sent, AfterCheckpoint);
    PropertyStays(setting, seen, sent, BeforeCheckpoint);
  }

  lemma KeyAsSent(setting: Setting, seen: Arg, sent: Arg)
    requires FilledIn(seen, sent)
    ensures VersionedObject(seen) ==> ObjectCheckpoint(setting, sent).None?
    ensures ObjectCheckpoint(setting, seen).Some? ==> !VersionedObject(sent)
    ensures ObjectCheckpoint(setting, seen).Some? && ObjectCheckpoint(setting, sent).Some? ==>
      ObjectCheckpoint(setting, sent) == ObjectCheckpoint(setting, seen)
  {
    PropertyStays(setting, seen, sent, Version);
    PropertyStays(setting, seen, sent, AtCheckpoint);
  }

  lemma {:induction false} LatestAsSent(setting: Setting, seen: seq<Arg>, sent: seq<Arg>)
    requires |seen| == |sent|
    requires forall i :: 0 <= i < |seen| ==> ObjectCheckpoint(setting, sent[i]) == ObjectCheckpoint(setting, seen[i])
    ensures LatestOf(setting, sent) == LatestOf(setting, seen)
  {
    if seen != [] {
      LatestAsSent(setting, seen[1..], sent[1..]);
    }
  }

  lemma MultiGetObjectsAsSent(setting: Setting, seen: Args, sent: Args)
    requires FilledIn(Fields(seen), Fields(sent))
    requires RootRule(setting, MultiGetObjects, seen).Some? && RootRule(setting, MultiGetObjects, sent).Some?
    ensures RootRule(setting, MultiGetObjects, sent) == RootRule(setting, MultiGetObjects, seen)
  {
    PropertyFilledIn(Fields(seen), Fields(sent), Keys);
    var a, b := Get(seen, Keys).items, Get(sent, Keys).items;
    forall i | 0 <= i < |a|
      ensures VersionedObject(a[i]) ==> ObjectCheckpoint(setting, b[i]).None?
      ensures ObjectCheckpoint(setting, a[i]).Some? ==> !VersionedObject(b[i])
      ensures ObjectCheckpoint(setting, a[i]).Some? && ObjectCheckpoint(setting, b[i]).Some? ==> ObjectCheckpoint(setting, b[i]) == ObjectCheckpoint(setting, a[i])
    {
      KeyAsSent(setting, a[i], b[i]);
    }
    if forall i :: 0 <= i < |a| ==> VersionedObject(a[i]) {
      assert VersionedObject(a[0]);
    } else {
      assert ObjectCheckpoint(setting, a[0]).Some?;
      LatestAsSent(setting, a, b);
    }
  }

  /** A root field accepted on the values given and on those sent: nothing it depends on is later than was seen. */
  lemma RuleAsSent(setting: Setting, name: Name, seen: Args, sent: Args)
    requires FilledIn(Fields(seen), Fields(sent)) && RootRule(setting, name, seen).Some? && RootRule(setting, name, sent).Some?
    ensures var a, b := RootRule(setting, name, seen).value, RootRule(setting, name, sent).value;
      && Nearer(a.scope, b.scope)
      && (b.bound.Some? ==> a.bound.Some? && b.bound.value <= a.bound.value)
  {
    match name {
      case Object =>
        PropertyStays(setting, Fields(seen), Fields(sent), Version);
        PropertyStays(setting, Fields(seen), Fields(sent), AtCheckpoint);
      case Package => PropertyStays(setting, Fields(seen), Fields(sent), Version);
      case MultiGetObjects => MultiGetObjectsAsSent(setting, seen, sent);
      case Events =>
        PropertyFilledIn(Fields(seen), Fields(sent), Filter);
        RangeAsSent(setting, Get(seen, Filter), Get(sent, Filter));
      case Transactions =>
        PropertyFilledIn(Fields(seen), Fields(sent), Filter);
        RangeAsSent(setting, Get(seen, Filter), Get(sent, Filter));
      case _ =>
    }
  }

  // ---------------------------------------------------------------------------
  // Verdicts
  // ---------------------------------------------------------------------------

  predicate NearerPlace(seen: Place, sent: Place) {
    match seen
    case Root => sent.Root?
    case In(scope) => sent.In? && Nearer(scope, sent.scope)
  }

  lemma BelowAsSent(setting: Setting, seen: Place, sent: Place, name: Name, a: Args, b: Args)
    requires NearerPlace(seen, sent) && FilledIn(Fields(a), Fields(b))
    requires Below(setting, seen, name, a).Some? && Below(setting, sent, name, b).Some?
    ensures NearerPlace(Below(setting, seen, name, a).value, Below(setting, sent, name, b).value)
    ensures MustBePresent(seen, name) == MustBePresent(sent, name)
  {
    if seen.Root? {
      RuleAsSent(setting, name, a, b);
    }
  }

  /** Accepted both ways, a selection set must show the same paths. */
  lemma {:induction false} PathsAsSent(setting: Setting, vars: Vars, defaults: Vars, seen: Place, sent: Place, ts: seq<Tree>)
    requires NearerPlace(seen, sent)
    requires SetPaths(setting, vars, seen, ts).Some? && SetPaths(setting, defaults + vars, sent, ts).Some?
    ensures SetPaths(setting, defaults + vars, sent, ts) == SetPaths(setting, vars, seen, ts)
    decreases ts, 0
  {
    if ts != [] {
      TreePathsAsSent(setting, vars, defaults, seen, sent, ts[0]);
      PathsAsSent(setting, vars, defaults, seen, sent, ts[1..]);
    }
  }

  lemma {:induction false} TreePathsAsSent(setting: Setting, vars: Vars, defaults: Vars, seen: Place, sent: Place, t: Tree)
    requires NearerPlace(seen, sent)
    requires TreePaths(setting, vars, seen, t).Some? && TreePaths(setting, defaults + vars, sent, t).Some?
    ensures TreePaths(setting, defaults + vars, sent, t) == TreePaths(setting, vars, seen, t)
    decreases t, 1
  {
    match t
    case Group(_, _, _, sub) => PathsAsSent(setting, vars, defaults, seen, sent, sub);
    case Leafed(name, key, args, _, sub) =>
      if !(seen.Root? && name == Typename) {
        var a, b := FieldsOf(args, vars), FieldsOf(args, defaults + vars);
        FieldsFilledIn(args, vars, defaults);
        BelowAsSent(setting, seen, sent, name, a, b);
        PathsAsSent(setting, vars, defaults, Below(setting, seen, name, a).value, Below(setting, sent, name, b).value, sub);
      }
  }

  /** Accepted both ways, every bound as sent is covered by one that was seen. */
  lemma {:induction false} BoundsAsSent(setting: Setting, vars: Vars, defaults: Vars, ts: seq<Tree>, b: nat) returns (a: nat)
    requires SetPaths(setting, vars, Root, ts).Some? && SetPaths(setting, defaults + vars, Root, ts).Some?
    requires b in Bounds(setting, defaults + vars, ts)
    ensures a in Bounds(setting, vars, ts) && b <= a
    decreases ts, 0
  {
    if b in TreeBounds(setting, defaults + vars, ts[0]) {
      a := TreeBoundsAsSent(setting, vars, defaults, ts[0], b);
    } else {
      a := BoundsAsSent(setting, vars, defaults, ts[1..], b);
    }
  }

  lemma {:induction false} TreeBoundsAsSent(setting: Setting, vars: Vars, defaults: Vars, t: Tree, b: nat) returns (a: nat)
    requires TreePaths(setting, vars, Root, t).Some? && TreePaths(setting, defaults + vars, Root, t).Some?
    requires b in TreeBounds(setting, defaults + vars, t)
    ensures a in TreeBounds(setting, vars, t) && b <= a
    decreases t, 1
  {
    match t
    case Group(_, _, _, sub) => a := BoundsAsSent(setting, vars, defaults, sub, b);
    case Leafed(name, _, args, _, _) =>
      FieldsFilledIn(args, vars, defaults);
      RuleAsSent(setting, name, FieldsOf(args, vars), FieldsOf(args, defaults + vars));
      a := RootRule(setting, name, FieldsOf(args, vars)).value.bound.value;
  }
}
