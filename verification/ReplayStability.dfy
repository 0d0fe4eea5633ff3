/** What was answered in full stays so. */
module ReplayStability {
  import opened Wrappers
  import opened GraphqlQuery
  import opened ReplayRules
  import opened ReplayClassifier
  import opened GraphqlExecution

  // ---------------------------------------------------------------------------
  // What the service promises
  // ---------------------------------------------------------------------------

  /** Every pipeline has written checkpoint `c` by moment `t`. */
  predicate Final(ch: Chain, t: nat, c: nat) {
    c + ch.lag <= ch.latest(t)
  }

  /** Things that are selected in a scope. A package is also selected as the newest of its lineage. */
  predicate Suits(scope: Scope, thing: Thing) {
    match thing
    case Record => scope == Data
    case Published => scope == Code || scope == Lineage
    case Named => scope == Ref
    case Account => scope == Addr
    case Ownership => scope == OwnerScope
    case EpochNumber => scope == EpochScope
  }

  /**
   * Objects that must look alike where they are selected in `scope`: the same
   * object, except that two versions of one package do when only their lineage
   * is looked at.
   */
  predicate Same(ch: Chain, t: nat, scope: Scope, o: nat, o': nat) {
    && ch.fixed(t, o) && Suits(scope, ch.thing(o)) && Suits(scope, ch.thing(o'))
    && if scope == Lineage then ch.lineage(o) == ch.lineage(o') && ch.typeName(o) == ch.typeName(o') else o == o'
  }

  /** Answers that agree: alike in shape and scalars, with objects that must look alike. */
  predicate Agree(ch: Chain, t: nat, scope: Scope, v: Answer, v': Answer)
    decreases v
  {
    match v
    case Missing => v'.Missing?
    case Leaf(json) => v' == v
    case Node(o) => v'.Node? && Same(ch, t, scope, o, v'.id)
    case Many(items) => v'.Many? && |items| == |v'.items| && forall i :: 0 <= i < |items| ==> Agree(ch, t, scope, items[i], v'.items[i])
  }

  /** What a fixed field leads to: a scalar, or objects of one kind. */
  datatype Leads = Scalar | To(thing: Thing)

  /** The fields that are fixed on a thing that is, and what each leads to; no other field is promised anything. */
  function Promised(setting: Setting, thing: Thing, name: Name): Option<Leads> {
    match thing
    case Record =>
      if name !in setting.dataFields then None
      else
        Some(match name
             case Sender | GasSponsor | Funder | Allowance | AsAddress => To(Account)
             case Owner => To(Ownership)
             case Epoch | Expiration => To(EpochNumber)
             case AsMovePackage | PackageAt => To(Published)
             case Module | Function | TransactionModule | Package => To(Named)
             case _ => To(Record))
    case Published =>
      if name !in setting.dataFields && name !in setting.codeFields then None
      else
        Some(match name
             case Sender | GasSponsor | Funder | Allowance | AsAddress => To(Account)
             case Owner => To(Ownership)
             case Epoch | Expiration => To(EpochNumber)
             case CoinType | PreviousTransaction | Transaction | Effects => To(Record)
             case _ => To(Published))
    case Named =>
      if name in {Module, Package} then Some(To(Named))
      else if name in {Typename, Id, OwnName, FullyQualifiedName, Address} then Some(Scalar)
      else None
    case Account => if name in {Typename, Id, Address} then Some(Scalar) else None
    case Ownership =>
      if name == Address then Some(To(Account))
      else if name in {Typename, Underscore, InitialSharedVersion, StartVersion} then Some(Scalar)
      else None
    case EpochNumber => if name in {Typename, Id, EpochId} then Some(Scalar) else None
  }

  /** The answer stays, and is what the field leads to. */
  predicate Stays(ch: Chain, t: nat, leads: Leads, v: Answer, v': Answer)
    decreases v
  {
    match v
    case Missing => v'.Missing?
    case Leaf(json) => v' == v
    case Node(o) => v' == v && leads.To? && ch.thing(o) == leads.thing && ch.fixed(t, o)
    case Many(items) => v'.Many? && |items| == |v'.items| && forall i :: 0 <= i < |items| ==> Stays(ch, t, leads, items[i], v'.items[i])
  }

  /** A fixed thing never changes in the fields that are promised. */
  predicate ThingFixed(setting: Setting, ch: Chain, t: nat, t': nat, o: nat, name: Name, args: Args) {
    t <= t' && ch.fixed(t, o) && name != Typename && !(name == PackageAt && ch.thing(o).Published?) && Promised(setting, ch.thing(o), name).Some? ==>
      Stays(ch, t, Promised(setting, ch.thing(o), name).value, ch.field(t, o, name, args), ch.field(t', o, name, args))
  }

  /** One version in a lineage, once published, stays as it is, and any package of the lineage leads to it. */
  predicate VersionFixed(ch: Chain, t: nat, t': nat, o: nat, o': nat, args: Args) {
    t <= t' && ch.fixed(t, o) && ch.thing(o).Published? && ch.thing(o').Published? && (o == o' || ch.lineage(o) == ch.lineage(o'))
      && PinnedPackageAt(args) && Found(ch.field(t, o, PackageAt, args)) ==>
        Stays(ch, t, To(Published), ch.field(t, o, PackageAt, args), ch.field(t', o', PackageAt, args))
  }

  // ----- The walk follows the things -----

  /** Answers that lead to things suit any scope of theirs, but that of a lineage. */
  lemma {:induction false} StaysAgree(ch: Chain, t: nat, leads: Leads, scope: Scope, v: Answer, v': Answer)
    requires Stays(ch, t, leads, v, v') && (leads.To? ==> Suits(scope, leads.thing) && scope != Lineage)
    ensures Agree(ch, t, scope, v, v')
    decreases v
  {
    if v.Many? {
      forall i | 0 <= i < |v.items| ensures Agree(ch, t, scope, v.items[i], v'.items[i]) {
        StaysAgree(ch, t, leads, scope, v.items[i], v'.items[i]);
      }
    }
  }

  /** The scope the walk goes on in is that of what the field leads to, and it allows no field that is not promised. */
  lemma WalkFollows(setting: Setting, scope: Scope, thing: Thing, name: Name)
    requires Suits(scope, thing) && !IsPackageAt(In(scope), name) && Allowed(setting, scope, name) && name != Typename
    ensures Promised(setting, thing, name).Some?
    ensures var child, leads := if name == PackageAt then Code else ChildScope(scope, name), Promised(setting, thing, name).value;
      leads.To? ==> Suits(child, leads.thing) && child != Lineage
  {
    match thing {
      case Record => RecordFollows(setting, name);
      case Published => PackageFollows(setting, name);
      case _ => SmallThingFollows(setting, scope, thing, name);
    }
  }

  lemma RecordFollows(setting: Setting, name: Name)
    requires name in setting.dataFields
    ensures var child, leads := if name == PackageAt then Code else ChildScope(Data, name), Promised(setting, Record, name).value;
      leads.To? ==> Suits(child, leads.thing) && child != Lineage
  {
  }

  lemma PackageFollows(setting: Setting, name: Name)
    requires (name in setting.dataFields || name in setting.codeFields) && name != PackageAt
    ensures var leads := Promised(setting, Published, name).value; leads.To? ==> Suits(ChildScope(Code, name), leads.thing) && ChildScope(Code, name) != Lineage
  {
  }

  lemma SmallThingFollows(setting: Setting, scope: Scope, thing: Thing, name: Name)
    requires Suits(scope, thing) && !thing.Record? && !thing.Published? && Allowed(setting, scope, name)
    ensures Promised(setting, thing, name).Some?
    ensures name != Typename && Promised(setting, thing, name).value.To? ==>
      name != PackageAt && Suits(ChildScope(scope, name), Promised(setting, thing, name).value.thing) && ChildScope(scope, name) != Lineage
  {
  }

  /** So an allowed field of a fixed thing never changes, and what it leads to is fixed where the walk goes on. */
  lemma FieldFixed(setting: Setting, ch: Chain, t: nat, t': nat, scope: Scope, o: nat, o': nat, name: Name, args: Args)
    requires Faithful(setting, ch) && t <= t' && Same(ch, t, scope, o, o')
    requires Allowed(setting, scope, name) && name != Typename && !IsPackageAt(In(scope), name)
    ensures Agree(ch, t, if name == PackageAt then Code else ChildScope(scope, name), ch.field(t, o, name, args), ch.field(t', o', name, args))
  {
    assert ThingFixed(setting, ch, t, t', o, name, args);
    WalkFollows(setting, scope, ch.thing(o), name);
    StaysAgree(ch, t, Promised(setting, ch.thing(o), name).value, if name == PackageAt then Code else ChildScope(scope, name),
               ch.field(t, o, name, args), ch.field(t', o', name, args));
  }

  /** A key that names one thing for good: it may appear later, and never changes after. */
  predicate Immutable(kind: Kind, key: Arg) {
    match kind
    case TransactionByDigest | EffectsByDigest | CheckpointByKey => true
    case CheckpointBy => Given(Property(key, SequenceNumber)) || Given(Property(key, Digest))
    case ObjectBy => Given(Property(key, Version)) && !Given(Property(key, RootVersion))
    case PackageBy => VersionedPackage(key)
  }

  /** The newest version of a package named by address only. */
  predicate Newest(kind: Kind, key: Arg) {
    kind.PackageBy? && !Given(Property(key, Version)) && !Given(Property(key, AtCheckpoint))
  }

  function ScopeOf(kind: Kind): Scope {
    if kind.PackageBy? then Code else Data
  }

  predicate PointFixed(setting: Setting, ch: Chain, t: nat, t': nat, kind: Kind, key: Arg) {
    t <= t' ==>
      var v, v' := ch.point(t, kind, key), ch.point(t', kind, key);
      && (Immutable(kind, key) && Found(v) ==> Agree(ch, t, ScopeOf(kind), v, v'))
      && (kind.ObjectBy? && ObjectCheckpoint(setting, key).Some? && Final(ch, t, ObjectCheckpoint(setting, key).value)
          ==> Agree(ch, t, Data, v, v'))
      && (Newest(kind, key) && Found(v) ==> Agree(ch, t, Lineage, v, v'))
  }

  function UpTo(rows: seq<Row>, c: nat): seq<Row> {
    if rows == [] then []
    else if rows[0].checkpoint <= c then [rows[0]] + UpTo(rows[1..], c)
    else UpTo(rows[1..], c)
  }

  /** A log does not change up to a final checkpoint. */
  predicate LogFixed(ch: Chain, t: nat, t': nat, log: Log, c: nat) {
    t <= t' && Final(ch, t, c) ==> UpTo(ch.rows(t', log), c) == UpTo(ch.rows(t, log), c)
  }

  /** Whatever a page of rows from final checkpoints leads to is fixed data. */
  predicate PageFixed(ch: Chain, t: nat, log: Log, args: Args, rows: seq<Row>) {
    (forall r :: r in rows ==> Final(ch, t, r.checkpoint)) ==> Agree(ch, t, Data, ch.page(log, args, rows), ch.page(log, args, rows))
  }

  ghost predicate Faithful(setting: Setting, ch: Chain) {
    && (forall t, t' :: 0 <= t <= t' ==> ch.latest(t) <= ch.latest(t'))
    && (forall t: nat, t': nat, o: nat, name, args :: ThingFixed(setting, ch, t, t', o, name, args))
    && (forall t: nat, t': nat, o: nat, o': nat, args :: VersionFixed(ch, t, t', o, o', args))
    && (forall t: nat, t': nat, kind, key :: PointFixed(setting, ch, t, t', kind, key))
    && (forall t: nat, t': nat, log, c: nat :: LogFixed(ch, t, t', log, c))
    && (forall t: nat, log, args, rows :: PageFixed(ch, t, log, args, rows))
  }

  // ---------------------------------------------------------------------------
  // Root fields
  // ---------------------------------------------------------------------------

  /** A key whose answer, once found at moment `t`, is fixed in `scope`. */
  predicate Lasting(setting: Setting, ch: Chain, t: nat, kind: Kind, scope: Scope, key: Arg) {
    || (Immutable(kind, key) && scope == ScopeOf(kind))
    || (kind.ObjectBy? && scope == Data && ObjectCheckpoint(setting, key).Some? && Final(ch, t, ObjectCheckpoint(setting, key).value))
  }

  lemma PointsStable(setting: Setting, ch: Chain, t: nat, t': nat, kind: Kind, scope: Scope, keys: seq<Arg>)
    requires Faithful(setting, ch) && t <= t' && Found(Many(Points(ch, t, kind, keys)))
    requires forall i :: 0 <= i < |keys| ==> Lasting(setting, ch, t, kind, scope, keys[i])
    ensures Agree(ch, t, scope, Many(Points(ch, t, kind, keys)), Many(Points(ch, t', kind, keys)))
  {
    forall i | 0 <= i < |keys| ensures Agree(ch, t, scope, Points(ch, t, kind, keys)[i], Points(ch, t', kind, keys)[i]) {
      assert PointFixed(setting, ch, t, t', kind, keys[i]) && Lasting(setting, ch, t, kind, scope, keys[i]);
      assert Found(Points(ch, t, kind, keys)[i]);
    }
  }

  lemma MultiGetObjectsStable(setting: Setting, ch: Chain, t: nat, t': nat, args: Args)
    requires Faithful(setting, ch) && t <= t' && RootRule(setting, MultiGetObjects, args).Some?
    requires var rule := RootRule(setting, MultiGetObjects, args).value; rule.bound.Some? ==> Final(ch, t, rule.bound.value)
    requires Found(RootAnswer(setting, ch, t, MultiGetObjects, args))
    ensures Agree(ch, t, Data, RootAnswer(setting, ch, t, MultiGetObjects, args), RootAnswer(setting, ch, t', MultiGetObjects, args))
  {
    var keys := Get(args, Keys).items;
    if !(forall i :: 0 <= i < |keys| ==> VersionedObject(keys[i])) {
      forall i | 0 <= i < |keys| ensures Lasting(setting, ch, t, ObjectBy, Data, keys[i]) {
        LatestCovers(setting, keys, i);
      }
    } else {
      forall i | 0 <= i < |keys| ensures Lasting(setting, ch, t, ObjectBy, Data, keys[i]) {
        assert VersionedObject(keys[i]);
      }
    }
    PointsStable(setting, ch, t, t', ObjectBy, Data, keys);
  }

  /** The filter lets nothing through after checkpoint `c`. */
  ghost predicate EndsBy(setting: Setting, filter: Arg, c: nat) {
    forall checkpoint: nat :: Within(setting, filter, checkpoint) ==> checkpoint <= c
  }

  /** Matching looks at nothing after the last checkpoint the filter lets through. */
  lemma {:induction false} MatchingUpTo(setting: Setting, ch: Chain, log: Log, filter: Arg, rows: seq<Row>, c: nat)
    requires EndsBy(setting, filter, c)
    ensures Matching(setting, ch, log, filter, rows) == Matching(setting, ch, log, filter, UpTo(rows, c))
    ensures forall r :: r in Matching(setting, ch, log, filter, rows) ==> r.checkpoint <= c
  {
    if rows != [] {
      MatchingUpTo(setting, ch, log, filter, rows[1..], c);
      if rows[0].checkpoint <= c {
        assert UpTo(rows, c)[1..] == UpTo(rows[1..], c);
      }
    }
  }

  /** A range of a log is fixed once its end is final. */
  lemma LoggedStable(setting: Setting, ch: Chain, t: nat, t': nat, log: Log, name: Name, args: Args, end: nat)
    requires Faithful(setting, ch) && t <= t'
    requires ClosedStart(setting, Get(args, Filter)) && EndsBy(setting, Get(args, Filter), end) && Final(ch, t, end)
    ensures Agree(ch, t, Data, Logged(setting, ch, t, log, name, args), Logged(setting, ch, t', log, name, args))
  {
    var filter := Get(args, Filter);
    MatchingUpTo(setting, ch, log, filter, ch.rows(t, log), end);
    MatchingUpTo(setting, ch, log, filter, ch.rows(t', log), end);
    assert LogFixed(ch, t, t', log, end);
    assert PageFixed(ch, t, log, args, Matching(setting, ch, log, filter, ch.rows(t, log)));
  }

  lemma RangeStable(setting: Setting, ch: Chain, t: nat, t': nat, log: Log, name: Name, args: Args)
    requires Faithful(setting, ch) && t <= t'
    requires var end := RangeEnd(setting, Get(args, Filter)); end.Some? && Final(ch, t, end.value)
    ensures Agree(ch, t, Data, Logged(setting, ch, t, log, name, args), Logged(setting, ch, t', log, name, args))
  {
    var filter := Get(args, Filter);
    forall checkpoint: nat | Within(setting, filter, checkpoint) ensures checkpoint <= RangeEnd(setting, filter).value {
      RangeEndBounds(setting, filter, checkpoint);
    }
    RangeEndBounds(setting, filter, 0);
    LoggedStable(setting, ch, t, t', log, name, args, RangeEnd(setting, filter).value);
  }

  lemma SinglePointStable(setting: Setting, ch: Chain, t: nat, t': nat, name: Name, args: Args)
    requires Faithful(setting, ch) && t <= t' && RootRule(setting, name, args).Some?
    requires name in {Transaction, TransactionEffects, Checkpoint, Object, Package}
    requires var rule := RootRule(setting, name, args).value; rule.bound.Some? ==> Final(ch, t, rule.bound.value)
    requires Found(RootAnswer(setting, ch, t, name, args))
    ensures Agree(ch, t, RootRule(setting, name, args).value.scope, RootAnswer(setting, ch, t, name, args), RootAnswer(setting, ch, t', name, args))
  {
    match name {
      case Transaction => assert PointFixed(setting, ch, t, t', TransactionByDigest, Get(args, Digest));
      case TransactionEffects => assert PointFixed(setting, ch, t, t', EffectsByDigest, Get(args, Digest));
      case Checkpoint => assert PointFixed(setting, ch, t, t', CheckpointBy, Fields(args));
      case Object => assert PointFixed(setting, ch, t, t', ObjectBy, Fields(args));
      case Package => assert PointFixed(setting, ch, t, t', PackageBy, Fields(args));
      case _ =>
    }
  }

  /** The lists whose keys are immutable by kind, or by the version each names. */
  lemma ImmutableListStable(setting: Setting, ch: Chain, t: nat, t': nat, kind: Kind, name: Name, args: Args)
    requires Faithful(setting, ch) && t <= t' && Get(args, Keys).Items?
    requires forall i :: 0 <= i < |Get(args, Keys).items| ==> Immutable(kind, Get(args, Keys).items[i])
    requires Found(Listed(ch, t, kind, name, args))
    ensures Agree(ch, t, ScopeOf(kind), Listed(ch, t, kind, name, args), Listed(ch, t', kind, name, args))
  {
    var keys := Get(args, Keys).items;
    forall i | 0 <= i < |keys| ensures Lasting(setting, ch, t, kind, ScopeOf(kind), keys[i]) {
      assert Immutable(kind, keys[i]);
    }
    PointsStable(setting, ch, t, t', kind, ScopeOf(kind), keys);
  }

  /** What a root rule says is true: the answer, once found and settled, is fixed in the rule's scope. */
  lemma RootStable(setting: Setting, ch: Chain, t: nat, t': nat, name: Name, args: Args)
    requires Faithful(setting, ch) && t <= t' && RootRule(setting, name, args).Some?
    requires var rule := RootRule(setting, name, args).value; rule.bound.Some? ==> Final(ch, t, rule.bound.value)
    requires Found(RootAnswer(setting, ch, t, name, args))
    ensures Agree(ch, t, RootRule(setting, name, args).value.scope, RootAnswer(setting, ch, t, name, args), RootAnswer(setting, ch, t', name, args))
  {
    match name {
      case MultiGetTransactions => ImmutableListStable(setting, ch, t, t', TransactionByDigest, name, args);
      case MultiGetTransactionEffects => ImmutableListStable(setting, ch, t, t', EffectsByDigest, name, args);
      case MultiGetCheckpoints => ImmutableListStable(setting, ch, t, t', CheckpointByKey, name, args);
      case MultiGetObjects => MultiGetObjectsStable(setting, ch, t, t', args);
      case MultiGetPackages =>
        forall i | 0 <= i < |Get(args, Keys).items| ensures Immutable(PackageBy, Get(args, Keys).items[i]) {
          assert VersionedPackage(Get(args, Keys).items[i]);
        }
        ImmutableListStable(setting, ch, t, t', PackageBy, name, args);
      case Events => RangeStable(setting, ch, t, t', EventLog, name, args);
      case Transactions => RangeStable(setting, ch, t, t', TransactionLog, name, args);
      case Transaction => SinglePointStable(setting, ch, t, t', name, args);
      case TransactionEffects => SinglePointStable(setting, ch, t, t', name, args);
      case Checkpoint => SinglePointStable(setting, ch, t, t', name, args);
      case Object => SinglePointStable(setting, ch, t, t', name, args);
      case Package => SinglePointStable(setting, ch, t, t', name, args);
      case _ =>
    }
  }

  // ---------------------------------------------------------------------------
  // Collected fields are checked fields
  // ---------------------------------------------------------------------------

  /** A field the analysis accepted, whose paths and bounds are among those of the whole set. */
  ghost predicate Checked(w: World, place: Place, f: Tree, paths: seq<Path>, bounds: seq<nat>) {
    && f.Leafed?
    && TreePaths(w.setting, w.vars, place, f).Some?
    && (forall p :: p in TreePaths(w.setting, w.vars, place, f).value ==> p in paths)
    && (place.Root? ==> forall b :: b in TreeBounds(w.setting, w.vars, f) ==> b in bounds)
  }

  lemma {:induction false} CollectChecked(w: World, place: Place, on: string, ts: seq<Tree>, visited: set<string>, paths: seq<Path>, bounds: seq<nat>)
    requires SetPaths(w.setting, w.vars, place, ts).Some?
    requires forall p :: p in SetPaths(w.setting, w.vars, place, ts).value ==> p in paths
    requires place.Root? ==> forall b :: b in Bounds(w.setting, w.vars, ts) ==> b in bounds
    ensures forall f :: f in Collect(w, on, ts, visited).fields ==> Checked(w, place, f, paths, bounds)
    decreases ts, 0
  {
    if ts != [] {
      CollectTreeChecked(w, place, on, ts[0], visited, paths, bounds);
      CollectChecked(w, place, on, ts[1..], CollectTree(w, on, ts[0], visited).visited, paths, bounds);
    }
  }

  lemma {:induction false} CollectTreeChecked(w: World, place: Place, on: string, t: Tree, visited: set<string>, paths: seq<Path>, bounds: seq<nat>)
    requires TreePaths(w.setting, w.vars, place, t).Some?
    requires forall p :: p in TreePaths(w.setting, w.vars, place, t).value ==> p in paths
    requires place.Root? ==> forall b :: b in TreeBounds(w.setting, w.vars, t) ==> b in bounds
    ensures forall f :: f in CollectTree(w, on, t, visited).fields ==> Checked(w, place, f, paths, bounds)
    decreases t, 1
  {
    if t.Group? {
      CollectChecked(w, place, on, t.sub, if t.origin.Some? then visited + {t.origin.value} else visited, paths, bounds);
    }
  }

  // ---------------------------------------------------------------------------
  // Groups
  // ---------------------------------------------------------------------------

  predicate HasKey(fields: seq<Tree>, key: Name)
    requires AllFields(fields)
  {
    fields != [] && (fields[0].key == key || HasKey(fields[1..], key))
  }

  lemma {:induction false} WithoutHas(fields: seq<Tree>, gone: Name, key: Name)
    requires AllFields(fields) && HasKey(Without(fields, gone), key)
    ensures key != gone
  {
    if fields[0].key == gone {
      WithoutHas(fields[1..], gone, key);
    } else if fields[0].key != key {
      assert Without(fields, gone)[1..] == Without(fields[1..], gone);
      WithoutHas(fields[1..], gone, key);
    }
  }

  lemma {:induction false} KeysHave(fields: seq<Tree>, key: Name)
    requires AllFields(fields) && key in KeysOf(fields)
    ensures fields != [] && (key == fields[0].key || HasKey(Without(fields[1..], fields[0].key), key))
    decreases |fields|
  {
    if key != fields[0].key {
      var later := Without(fields[1..], fields[0].key);
      KeysHave(later, key);
      if key != later[0].key {
        WithoutKeeps(later[1..], later[0].key, key);
      }
    }
  }

  lemma {:induction false} WithoutKeeps(fields: seq<Tree>, gone: Name, key: Name)
    requires AllFields(fields) && HasKey(Without(fields, gone), key)
    ensures HasKey(fields, key)
  {
    var later := fields[1..];
    if fields[0].key == gone {
      assert Without(fields, gone) == Without(later, gone);
      WithoutKeeps(later, gone, key);
    } else if fields[0].key != key {
      WithoutFront(fields, gone);
      WithoutKeeps(later, gone, key);
    }
  }

  lemma {:induction false} WithoutFront(fields: seq<Tree>, gone: Name)
    requires AllFields(fields) && fields != [] && fields[0].key != gone
    ensures var rest := Without(fields, gone);
      rest != [] && rest[0] == fields[0] && rest[1..] == Without(fields[1..], gone)
  {
  }

  predicate NoRepeat(keys: seq<Name>) {
    keys != [] ==> keys[0] !in keys[1..] && NoRepeat(keys[1..])
  }

  lemma {:induction false} KeysDoNotRepeat(fields: seq<Tree>)
    requires AllFields(fields)
    ensures NoRepeat(KeysOf(fields))
    decreases |fields|
  {
    if fields != [] {
      var key := fields[0].key;
      var later := Without(fields[1..], key);
      KeysDoNotRepeat(later);
      assert KeysOf(fields)[1..] == KeysOf(later);
      if key in KeysOf(later) {
        KeysHave(later, key);
        assert HasKey(later, key) by {
          if key != later[0].key { WithoutKeeps(later[1..], later[0].key, key); }
        }
        WithoutHas(fields[1..], key, key);
      }
    }
  }

  lemma {:induction false} WithKeyIn(fields: seq<Tree>, key: Name)
    requires AllFields(fields)
    ensures forall f :: f in WithKey(fields, key) ==> f in fields && f.key == key
  {
    if fields != [] { WithKeyIn(fields[1..], key); }
  }

  lemma {:induction false} SetPathsAppend(setting: Setting, vars: Vars, place: Place, a: seq<Tree>, b: seq<Tree>)
    ensures SetPaths(setting, vars, place, a + b) == Both(SetPaths(setting, vars, place, a), SetPaths(setting, vars, place, b))
  {
    if a == [] {
      assert a + b == b;
      if SetPaths(setting, vars, place, b).Some? {
        assert [] + SetPaths(setting, vars, place, b).value == SetPaths(setting, vars, place, b).value;
      }
    } else {
      assert (a + b)[1..] == a[1..] + b;
      SetPathsAppend(setting, vars, place, a[1..], b);
      var first, rest, last := TreePaths(setting, vars, place, a[0]), SetPaths(setting, vars, place, a[1..]), SetPaths(setting, vars, place, b);
      if first.Some? && rest.Some? && last.Some? {
        assert first.value + rest.value + last.value == first.value + (rest.value + last.value);
      }
    }
  }

  /** The selections under a group of like fields are all checked in the place below, and their paths are the group's. */
  lemma {:induction false} MergedChecked(w: World, place: Place, group: seq<Tree>, key: Name, name: Name, args: Args, paths: seq<Path>, bounds: seq<nat>)
    requires AllFields(group) && !(place.Root? && name == Typename)
    requires Below(w.setting, place, name, args).Some?
    requires forall f :: f in group ==> Checked(w, place, f, paths, bounds) && f.key == key && f.name == name && ArgsOf(f, w.vars) == args
    ensures var below := Below(w.setting, place, name, args).value;
      SetPaths(w.setting, w.vars, below, Merged(group)).Some? &&
      forall p :: p in SetPaths(w.setting, w.vars, below, Merged(group)).value ==> [key] + p in paths
  {
    if group != [] {
      var below := Below(w.setting, place, name, args).value;
      var f := group[0];
      MergedChecked(w, place, group[1..], key, name, args, paths, bounds);
      SetPathsAppend(w.setting, w.vars, below, f.sub, Merged(group[1..]));
      assert Checked(w, place, f, paths, bounds);
      var inner := SetPaths(w.setting, w.vars, below, f.sub).value;
      forall p | p in inner ensures [key] + p in paths {
        var i :| 0 <= i < |inner| && inner[i] == p;
        assert Under(key, inner)[i] == [key] + p;
        assert [key] + p in TreePaths(w.setting, w.vars, place, f).value;
      }
    }
  }

  // ---------------------------------------------------------------------------
  // One field
  // ---------------------------------------------------------------------------

  predicate SameSite(ch: Chain, t: nat, place: Place, site: Site, site': Site) {
    match place
    case Root => site.QueryRoot? && site'.QueryRoot?
    case In(scope) => site.At? && site'.At? && Same(ch, t, scope, site.id, site'.id)
  }

  /** Every bound of the operation is final at `t`. */
  ghost predicate Settled(ch: Chain, t: nat, bounds: seq<nat>) {
    forall b :: b in bounds ==> Final(ch, t, b)
  }

  /** A fixed field resolves alike; one that must be present, only once it is found. */
  lemma ResolveStable(w: World, t: nat, t': nat, place: Place, site: Site, site': Site, f: Tree, bounds: seq<nat>)
    requires Faithful(w.setting, w.ch) && t <= t' && SameSite(w.ch, t, place, site, site')
    requires f.Leafed? && !(place.Root? && f.name == Typename)
    requires Below(w.setting, place, f.name, ArgsOf(f, w.vars)).Some?
    requires MustBePresent(place, f.name) ==> Found(Resolve(w, t, site, f))
    requires place.Root? ==> Settled(w.ch, t, bounds) && forall b :: b in TreeBounds(w.setting, w.vars, f) ==> b in bounds
    ensures Agree(w.ch, t, Below(w.setting, place, f.name, ArgsOf(f, w.vars)).value.scope, Resolve(w, t, site, f), Resolve(w, t', site', f))
  {
    var args := ArgsOf(f, w.vars);
    match place {
      case Root =>
        var rule := RootRule(w.setting, f.name, args).value;
        if rule.bound.Some? {
          assert rule.bound.value in TreeBounds(w.setting, w.vars, f);
        }
        RootStable(w.setting, w.ch, t, t', f.name, args);
      case In(scope) =>
        if f.name != Typename {
          if IsPackageAt(place, f.name) {
            assert VersionFixed(w.ch, t, t', site.id, site'.id, args);
            StaysAgree(w.ch, t, To(Published), Code, w.ch.field(t, site.id, PackageAt, args), w.ch.field(t', site'.id, PackageAt, args));
          } else {
            FieldFixed(w.setting, w.ch, t, t', scope, site.id, site'.id, f.name, args);
          }
        }
    }
  }

  /** A response without nulls comes from an answer without nulls. */
  lemma {:induction false} PresentIsFound(w: World, t: nat, v: Answer, sub: seq<Tree>)
    requires Complete(w, t, v, sub).Some? && Present(Complete(w, t, v, sub).value, [])
    ensures Found(v)
    decreases v, 1
  {
    if v.Many? {
      AllPresentAreFound(w, t, v.items, sub);
    }
  }

  lemma {:induction false} AllPresentAreFound(w: World, t: nat, items: seq<Answer>, sub: seq<Tree>)
    requires CompleteAll(w, t, items, sub).Some?
    requires forall i :: 0 <= i < |CompleteAll(w, t, items, sub).value| ==> Present(CompleteAll(w, t, items, sub).value[i], [])
    ensures forall i :: 0 <= i < |items| ==> Found(items[i])
    decreases items, 0
  {
    if items != [] {
      var all := CompleteAll(w, t, items, sub).value;
      assert all[0] == Complete(w, t, items[0], sub).value && all[1..] == CompleteAll(w, t, items[1..], sub).value;
      PresentIsFound(w, t, items[0], sub);
      AllPresentAreFound(w, t, items[1..], sub);
    }
  }

  // ---------------------------------------------------------------------------
  // The whole response
  // ---------------------------------------------------------------------------

  ghost predicate AllPresent(value: Json, paths: seq<Path>) {
    forall p :: p in paths ==> Present(value, p)
  }

  lemma {:induction false} SetStable(w: World, t: nat, t': nat, place: Place, site: Site, site': Site, ts: seq<Tree>)
    requires Faithful(w.setting, w.ch) && t <= t' && SameSite(w.ch, t, place, site, site')
    requires SetPaths(w.setting, w.vars, place, ts).Some? && ExecSet(w, t, site, ts).Some?
    requires AllPresent(ExecSet(w, t, site, ts).value, SetPaths(w.setting, w.vars, place, ts).value)
    requires place.Root? ==> Settled(w.ch, t, Bounds(w.setting, w.vars, ts))
    ensures ExecSet(w, t', site', ts) == ExecSet(w, t, site, ts)
    decreases Size(ts), 3
  {
    var on := TypeOf(w, site);
    assert TypeOf(w, site') == on;
    var fields := Collect(w, on, ts, {}).fields;
    var paths, bounds := SetPaths(w.setting, w.vars, place, ts).value, Bounds(w.setting, w.vars, ts);
    CollectSize(w, on, ts, {});
    CollectChecked(w, place, on, ts, {}, paths, bounds);
    KeysDoNotRepeat(fields);
    KeysStable(w, t, t', place, site, site', fields, KeysOf(fields), paths, bounds);
  }

  /** The first member of a response, and the rest. */
  lemma FirstMember(w: World, t: nat, site: Site, fields: seq<Tree>, keys: seq<Name>)
    requires AllFields(fields) && keys != []
    ensures var group := WithKey(fields, keys[0]);
      group == [] || !CanMerge(group, w.vars) ==> ExecKeys(w, t, site, fields, keys).None?
    ensures var group := WithKey(fields, keys[0]);
      group != [] && CanMerge(group, w.vars) ==>
        var value := Complete(w, t, Resolve(w, t, site, group[0]), Merged(group));
        var rest := ExecKeys(w, t, site, fields, keys[1..]);
        ExecKeys(w, t, site, fields, keys)
        == if value.None? || rest.None? then None else Some([Member(keys[0], value.value)] + rest.value)
  {
  }

  /** A path leads into the member its first name selects. */
  lemma PresentInMembers(first: Member, rest: seq<Member>, p: Path)
    requires p != []
    ensures Present(JObject([first] + rest), p) == if p[0] == first.key then Present(first.value, p[1..]) else Present(JObject(rest), p)
  {
    var members := [first] + rest;
    assert members[0] == first && members[1..] == rest;
    assert Present(JObject(members), p) == PresentIn(members, p[0], p[1..]);
    assert PresentMember(first, p[1..]) == Present(first.value, p[1..]);
    assert Present(JObject(rest), p) == PresentIn(rest, p[0], p[1..]);
  }

  /** The members of a response object, for the response keys still to come. */
  lemma {:induction false} KeysStable(w: World, t: nat, t': nat, place: Place, site: Site, site': Site,
                                      fields: seq<Tree>, keys: seq<Name>, paths: seq<Path>, bounds: seq<nat>)
    requires Faithful(w.setting, w.ch) && t <= t' && SameSite(w.ch, t, place, site, site')
    requires AllFields(fields) && NoRepeat(keys) && forall f :: f in fields ==> Checked(w, place, f, paths, bounds)
    requires ExecKeys(w, t, site, fields, keys).Some?
    requires forall p :: p in paths && p != [] && p[0] in keys ==> Present(JObject(ExecKeys(w, t, site, fields, keys).value), p)
    requires place.Root? ==> Settled(w.ch, t, bounds)
    ensures ExecKeys(w, t', site', fields, keys) == ExecKeys(w, t, site, fields, keys)
    decreases Size(fields), 2, |keys|
  {
    if keys != [] {
      FirstMember(w, t, site, fields, keys);
      FirstMember(w, t', site', fields, keys);
      var group := WithKey(fields, keys[0]);
      var value := Complete(w, t, Resolve(w, t, site, group[0]), Merged(group)).value;
      var rest := ExecKeys(w, t, site, fields, keys[1..]).value;
      forall p | p in paths && p != [] && p[0] in keys
        ensures if p[0] == keys[0] then Present(value, p[1..]) else Present(JObject(rest), p)
      {
        PresentInMembers(Member(keys[0], value), rest, p);
      }
      KeysStable(w, t, t', place, site, site', fields, keys[1..], paths, bounds);
      GroupStable(w, t, t', place, site, site', fields, keys[0], value, paths, bounds);
    }
  }

  /** The path of a field that must be present is among the required ones. */
  lemma {:induction false} RequiredKey(w: World, place: Place, f: Tree, paths: seq<Path>, bounds: seq<nat>)
    requires f.Leafed? && Checked(w, place, f, paths, bounds) && MustBePresent(place, f.name) && !(place.Root? && f.name == Typename)
    ensures [f.key] in paths && [f.key][1..] == []
  {
    assert TreePaths(w.setting, w.vars, place, f).value[0] == [f.key];
  }

  /** One response key: the fields that share it resolve alike, and so do the selections merged under them. */
  lemma {:induction false} GroupStable(w: World, t: nat, t': nat, place: Place, site: Site, site': Site,
                                       fields: seq<Tree>, key: Name, value: Json, paths: seq<Path>, bounds: seq<nat>)
    requires Faithful(w.setting, w.ch) && t <= t' && SameSite(w.ch, t, place, site, site')
    requires AllFields(fields) && forall f :: f in fields ==> Checked(w, place, f, paths, bounds)
    requires WithKey(fields, key) != [] && CanMerge(WithKey(fields, key), w.vars)
    requires var group := WithKey(fields, key);
      Complete(w, t, Resolve(w, t, site, group[0]), Merged(group)) == Some(value)
    requires forall p :: p in paths && p != [] && p[0] == key ==> Present(value, p[1..])
    requires place.Root? ==> Settled(w.ch, t, bounds)
    ensures var group := WithKey(fields, key);
      Complete(w, t', Resolve(w, t', site', group[0]), Merged(group)) == Some(value)
    decreases Size(fields), 1
  {
    WithKeyIn(fields, key);
    GroupSize(fields, key);
    MergedStable(w, t, t', place, site, site', WithKey(fields, key), key, value, paths, bounds);
  }

  lemma {:induction false} MergedStable(w: World, t: nat, t': nat, place: Place, site: Site, site': Site,
                                        group: seq<Tree>, key: Name, value: Json, paths: seq<Path>, bounds: seq<nat>)
    requires Faithful(w.setting, w.ch) && t <= t' && SameSite(w.ch, t, place, site, site')
    requires AllFields(group) && group != [] && CanMerge(group, w.vars)
    requires forall f :: f in group ==> Checked(w, place, f, paths, bounds) && f.key == key
    requires Complete(w, t, Resolve(w, t, site, group[0]), Merged(group)) == Some(value)
    requires forall p :: p in paths && p != [] && p[0] == key ==> Present(value, p[1..])
    requires place.Root? ==> Settled(w.ch, t, bounds)
    ensures Complete(w, t', Resolve(w, t', site', group[0]), Merged(group)) == Some(value)
    decreases Size(Merged(group)), 5
  {
    var f := group[0];
    assert f in group;
    if place.Root? && f.name == Typename {
      TypenameStays(w, t, t', site, site', f, Merged(group));
    } else {
      HeadAgrees(w, t, t', place, site, site', f, Merged(group), value, paths, bounds);
      MergedPresent(w, place, group, key, value, paths, bounds);
      var below := Below(w.setting, place, f.name, ArgsOf(f, w.vars)).value;
      CompleteStable(w, t, t', below.scope, Resolve(w, t, site, f), Resolve(w, t', site', f), Merged(group));
    }
  }

  lemma {:induction false} TypenameStays(w: World, t: nat, t': nat, site: Site, site': Site, f: Tree, sub: seq<Tree>)
    requires f.Leafed? && f.name == Typename && site.QueryRoot? && site'.QueryRoot?
    ensures Complete(w, t', Resolve(w, t', site', f), sub) == Complete(w, t, Resolve(w, t, site, f), sub)
  {
    assert Resolve(w, t', site', f) == Resolve(w, t, site, f);
  }

  /** The first field of a response key resolves alike, its answer being present where it must be. */
  lemma HeadAgrees(w: World, t: nat, t': nat, place: Place, site: Site, site': Site, f: Tree, sub: seq<Tree>, value: Json, paths: seq<Path>, bounds: seq<nat>)
    requires Faithful(w.setting, w.ch) && t <= t' && SameSite(w.ch, t, place, site, site')
    requires Checked(w, place, f, paths, bounds) && !(place.Root? && f.name == Typename)
    requires Complete(w, t, Resolve(w, t, site, f), sub) == Some(value)
    requires forall p :: p in paths && p != [] && p[0] == f.key ==> Present(value, p[1..])
    requires place.Root? ==> Settled(w.ch, t, bounds)
    ensures Below(w.setting, place, f.name, ArgsOf(f, w.vars)).Some?
    ensures Agree(w.ch, t, Below(w.setting, place, f.name, ArgsOf(f, w.vars)).value.scope, Resolve(w, t, site, f), Resolve(w, t', site', f))
  {
    if MustBePresent(place, f.name) {
      RequiredKey(w, place, f, paths, bounds);
      PresentIsFound(w, t, Resolve(w, t, site, f), sub);
    }
    ResolveStable(w, t, t', place, site, site', f, bounds);
  }

  /** What must be present under a response key is present in its answer. */
  lemma MergedPresent(w: World, place: Place, group: seq<Tree>, key: Name, value: Json, paths: seq<Path>, bounds: seq<nat>)
    requires AllFields(group) && group != [] && CanMerge(group, w.vars) && !(place.Root? && group[0].name == Typename)
    requires forall f :: f in group ==> Checked(w, place, f, paths, bounds) && f.key == key
    requires forall p :: p in paths && p != [] && p[0] == key ==> Present(value, p[1..])
    requires Below(w.setting, place, group[0].name, ArgsOf(group[0], w.vars)).Some?
    ensures var below := Below(w.setting, place, group[0].name, ArgsOf(group[0], w.vars)).value;
      SetPaths(w.setting, w.vars, below, Merged(group)).Some? && AllPresent(value, SetPaths(w.setting, w.vars, below, Merged(group)).value)
  {
    MergedChecked(w, place, group, key, group[0].name, ArgsOf(group[0], w.vars), paths, bounds);
    forall p: Path | [key] + p in paths ensures Present(value, p) {
      assert ([key] + p)[1..] == p;
    }
  }

  lemma {:induction false} CompleteStable(w: World, t: nat, t': nat, scope: Scope, v: Answer, v': Answer, sub: seq<Tree>)
    requires Faithful(w.setting, w.ch) && t <= t' && Agree(w.ch, t, scope, v, v')
    requires SetPaths(w.setting, w.vars, In(scope), sub).Some? && Complete(w, t, v, sub).Some?
    requires AllPresent(Complete(w, t, v, sub).value, SetPaths(w.setting, w.vars, In(scope), sub).value)
    ensures Complete(w, t', v', sub) == Complete(w, t, v, sub)
    decreases Size(sub), 4, v
  {
    match v {
      case Missing =>
      case Leaf(_) =>
      case Node(id) => SetStable(w, t, t', In(scope), At(id), At(v'.id), sub);
      case Many(items) => CompleteAllStable(w, t, t', scope, items, v'.items, sub);
    }
  }

  lemma {:induction false} CompleteAllStable(w: World, t: nat, t': nat, scope: Scope, items: seq<Answer>, items': seq<Answer>, sub: seq<Tree>)
    requires Faithful(w.setting, w.ch) && t <= t'
    requires |items| == |items'| && forall i :: 0 <= i < |items| ==> Agree(w.ch, t, scope, items[i], items'[i])
    requires SetPaths(w.setting, w.vars, In(scope), sub).Some? && CompleteAll(w, t, items, sub).Some?
    requires forall i :: 0 <= i < |CompleteAll(w, t, items, sub).value| ==>
      AllPresent(CompleteAll(w, t, items, sub).value[i], SetPaths(w.setting, w.vars, In(scope), sub).value)
    ensures CompleteAll(w, t', items', sub) == CompleteAll(w, t, items, sub)
    decreases Size(sub), 4, items
  {
    if items != [] {
      var all := CompleteAll(w, t, items, sub).value;
      assert all[0] == Complete(w, t, items[0], sub).value && all[1..] == CompleteAll(w, t, items[1..], sub).value;
      CompleteStable(w, t, t', scope, items[0], items'[0], sub);
      CompleteAllStable(w, t, t', scope, items[1..], items'[1..], sub);
    }
  }
}
