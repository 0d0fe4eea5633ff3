/** Accepted is what is promised. */
module ReplayPromises {
  import opened Wrappers
  import opened GraphqlQuery
  import opened FragmentCycles
  import opened ReplayRules
  import opened ReplayClassifier
  import opened GraphqlExecution
  import opened ReplayStability
  import opened ReplayExamples

  // ---------------------------------------------------------------------------
  // Selections of promised fields
  // ---------------------------------------------------------------------------

  /**
   * What a field leads to that is promised on a thing. A package version found
   * as the newest of its lineage promises its type, and any version of the
   * lineage; so does a package version, of its lineage.
   */
  function LeadsOf(setting: Setting, thing: Thing, newest: bool, name: Name, args: Args): Option<Leads> {
    if thing.Published? && name == PackageAt then
      if Given(Get(args, Version)) && !Given(Get(args, Checkpoint)) then Some(To(Published)) else None
    else if newest then if name == Typename then Some(Scalar) else None
    else Promised(setting, thing, name)
  }

  /** Every field selected, at any depth, is promised on the thing it is selected on. */
  predicate AllPromised(setting: Setting, vars: Vars, thing: Thing, newest: bool, ts: seq<Tree>)
    decreases ts, 0
  {
    ts == [] || (OnePromised(setting, vars, thing, newest, ts[0]) && AllPromised(setting, vars, thing, newest, ts[1..]))
  }

  predicate OnePromised(setting: Setting, vars: Vars, thing: Thing, newest: bool, t: Tree)
    decreases t, 1
  {
    match t
    case Group(_, _, _, sub) => AllPromised(setting, vars, thing, newest, sub)
    case Leafed(name, _, args, _, sub) =>
      var leads := LeadsOf(setting, thing, newest, name, FieldsOf(args, vars));
      leads.Some? && (leads.value.To? ==> AllPromised(setting, vars, leads.value.thing, false, sub))
  }

  /** Nothing is selected under a field that leads to a scalar. */
  predicate ScalarsBare(setting: Setting, vars: Vars, thing: Thing, newest: bool, ts: seq<Tree>)
    decreases ts, 0
  {
    ts == [] || (OneBare(setting, vars, thing, newest, ts[0]) && ScalarsBare(setting, vars, thing, newest, ts[1..]))
  }

  predicate OneBare(setting: Setting, vars: Vars, thing: Thing, newest: bool, t: Tree)
    decreases t, 1
  {
    match t
    case Group(_, _, _, sub) => ScalarsBare(setting, vars, thing, newest, sub)
    case Leafed(name, _, args, _, sub) =>
      var leads := LeadsOf(setting, thing, newest, name, FieldsOf(args, vars));
      leads.Some? ==> if leads.value.Scalar? then sub == [] else ScalarsBare(setting, vars, leads.value.thing, false, sub)
  }

  // ---------------------------------------------------------------------------
  // The walk accepts just those
  // ---------------------------------------------------------------------------

  /** A field is allowed exactly when it is promised, and the walk goes on in a scope of what it leads to. */
  lemma FieldIsPromised(setting: Setting, scope: Scope, thing: Thing, name: Name, args: Args)
    requires Suits(scope, thing)
    ensures var below, leads := Below(setting, In(scope), name, args), LeadsOf(setting, thing, scope == Lineage, name, args);
      && (below.Some? <==> leads.Some?)
      && (below.Some? && leads.value.To? ==> below.value.In? && Suits(below.value.scope, leads.value.thing) && below.value.scope != Lineage)
  {
    match thing {
      case Record => RecordFieldIsPromised(setting, name, args);
      case Published => PackageFieldIsPromised(setting, scope, name, args);
      case _ => SmallFieldIsPromised(setting, scope, thing, name, args);
    }
  }

  lemma RecordFieldIsPromised(setting: Setting, name: Name, args: Args)
    ensures var below, leads := Below(setting, In(Data), name, args), LeadsOf(setting, Record, false, name, args);
      && (below.Some? <==> leads.Some?)
      && (below.Some? && leads.value.To? ==> below.value.In? && Suits(below.value.scope, leads.value.thing) && below.value.scope != Lineage)
  {
  }

  lemma SmallFieldIsPromised(setting: Setting, scope: Scope, thing: Thing, name: Name, args: Args)
    requires Suits(scope, thing) && !thing.Record? && !thing.Published?
    ensures var below, leads := Below(setting, In(scope), name, args), LeadsOf(setting, thing, false, name, args);
      && (below.Some? <==> leads.Some?)
      && (below.Some? && leads.value.To? ==> below.value.In? && Suits(below.value.scope, leads.value.thing) && below.value.scope != Lineage)
  {
  }

  lemma PackageFieldIsPromised(setting: Setting, scope: Scope, name: Name, args: Args)
    requires scope == Code || scope == Lineage
    ensures var below, leads := Below(setting, In(scope), name, args), LeadsOf(setting, Published, scope == Lineage, name, args);
      && (below.Some? <==> leads.Some?)
      && (below.Some? && leads.value.To? ==> below.value.In? && Suits(below.value.scope, leads.value.thing) && below.value.scope != Lineage)
  {
  }

  /** The walk of a selection set accepts it exactly when every field of it is promised. */
  lemma {:induction false} WalkIsExact(setting: Setting, vars: Vars, scope: Scope, thing: Thing, ts: seq<Tree>)
    requires Suits(scope, thing) && ScalarsBare(setting, vars, thing, scope == Lineage, ts)
    ensures SetPaths(setting, vars, In(scope), ts).Some? <==> AllPromised(setting, vars, thing, scope == Lineage, ts)
    decreases ts, 0
  {
    if ts != [] {
      TreeIsExact(setting, vars, scope, thing, ts[0]);
      WalkIsExact(setting, vars, scope, thing, ts[1..]);
    }
  }

  lemma {:induction false} TreeIsExact(setting: Setting, vars: Vars, scope: Scope, thing: Thing, t: Tree)
    requires Suits(scope, thing) && OneBare(setting, vars, thing, scope == Lineage, t)
    ensures TreePaths(setting, vars, In(scope), t).Some? <==> OnePromised(setting, vars, thing, scope == Lineage, t)
    decreases t, 1
  {
    match t
    case Group(_, _, _, sub) => WalkIsExact(setting, vars, scope, thing, sub);
    case Leafed(name, _, args, _, sub) =>
      FieldIsPromised(setting, scope, thing, name, FieldsOf(args, vars));
      var below, leads := Below(setting, In(scope), name, FieldsOf(args, vars)), LeadsOf(setting, thing, scope == Lineage, name, FieldsOf(args, vars));
      if below.Some? && leads.value.To? {
        WalkIsExact(setting, vars, below.value.scope, leads.value.thing, sub);
      }
  }

  // ---------------------------------------------------------------------------
  // Root fields
  // ---------------------------------------------------------------------------

  /** What a root field's rule says its answer is. */
  function RootThing(scope: Scope): Thing {
    if scope == Code || scope == Lineage then Published else Record
  }

  /** Every root field but the type name has a rule, and every field under it is promised. */
  predicate RootsPromised(setting: Setting, vars: Vars, ts: seq<Tree>)
    decreases ts, 0
  {
    ts == [] || (RootPromised(setting, vars, ts[0]) && RootsPromised(setting, vars, ts[1..]))
  }

  predicate RootPromised(setting: Setting, vars: Vars, t: Tree)
    decreases t, 1
  {
    match t
    case Group(_, _, _, sub) => RootsPromised(setting, vars, sub)
    case Leafed(name, _, args, _, sub) =>
      name == Typename
      || var rule := RootRule(setting, name, FieldsOf(args, vars));
         rule.Some? && AllPromised(setting, vars, RootThing(rule.value.scope), rule.value.scope == Lineage, sub)
  }

  predicate RootsBare(setting: Setting, vars: Vars, ts: seq<Tree>)
    decreases ts, 0
  {
    ts == [] || (RootBare(setting, vars, ts[0]) && RootsBare(setting, vars, ts[1..]))
  }

  predicate RootBare(setting: Setting, vars: Vars, t: Tree)
    decreases t, 1
  {
    match t
    case Group(_, _, _, sub) => RootsBare(setting, vars, sub)
    case Leafed(name, _, args, _, sub) =>
      var rule := RootRule(setting, name, FieldsOf(args, vars));
      name != Typename && rule.Some? ==> ScalarsBare(setting, vars, RootThing(rule.value.scope), rule.value.scope == Lineage, sub)
  }

  /** Some root field is more than the type name. */
  predicate SomeRoot(ts: seq<Tree>)
    decreases ts, 0
  {
    ts != [] && (IsRoot(ts[0]) || SomeRoot(ts[1..]))
  }

  predicate IsRoot(t: Tree)
    decreases t, 1
  {
    match t
    case Group(_, _, _, sub) => SomeRoot(sub)
    case Leafed(name, _, _, _, _) => name != Typename
  }

  lemma {:induction false} RootsAreExact(setting: Setting, vars: Vars, ts: seq<Tree>)
    requires RootsBare(setting, vars, ts)
    ensures var paths := SetPaths(setting, vars, Root, ts);
      (paths.Some? <==> RootsPromised(setting, vars, ts)) && (paths.Some? ==> (paths.value != [] <==> SomeRoot(ts)))
    decreases ts, 0
  {
    if ts != [] {
      RootIsExact(setting, vars, ts[0]);
      RootsAreExact(setting, vars, ts[1..]);
    }
  }

  lemma {:induction false} RootIsExact(setting: Setting, vars: Vars, t: Tree)
    requires RootBare(setting, vars, t)
    ensures var paths := TreePaths(setting, vars, Root, t);
      (paths.Some? <==> RootPromised(setting, vars, t)) && (paths.Some? ==> (paths.value != [] <==> IsRoot(t)))
    decreases t, 1
  {
    match t
    case Group(_, _, _, sub) => RootsAreExact(setting, vars, sub);
    case Leafed(name, _, args, _, sub) =>
      var rule := RootRule(setting, name, FieldsOf(args, vars));
      if name != Typename && rule.Some? {
        WalkIsExact(setting, vars, rule.value.scope, RootThing(rule.value.scope), sub);
      }
  }

  /**
   * A document that selects nothing under scalars is classified exactly when
   * its fragments can be inlined, it asks for more than the type name, every
   * root field has a rule, and every field below is promised on what it is
   * selected on.
   */
  lemma ClassifiedExactly(setting: Setting, doc: Document, vars: Vars)
    requires InlineDocument(doc).Some? ==> RootsBare(setting, vars, InlineDocument(doc).value)
    ensures Classify(setting, doc, vars).Some? <==>
      Defined(doc) && Acyclic(doc) && var ts := InlineDocument(doc); ts.Some? && SomeRoot(ts.value) && RootsPromised(setting, vars, ts.value)
  {
    InlinesIffAcyclic(doc);
    if InlineDocument(doc).Some? {
      RootsAreExact(setting, vars, InlineDocument(doc).value);
    }
  }

  predicate AllKeys(args: Args, fits: Arg -> bool) {
    Get(args, Keys).Items? && Get(args, Keys).items != [] && forall i :: 0 <= i < |Get(args, Keys).items| ==> fits(Get(args, Keys).items[i])
  }

  /**
   * Which lookups have a rule: those whose keys name one thing for good, an
   * object as of a checkpoint, or the newest of a package; in lists, of one
   * sort, and not none. A range has one when it has an end.
   */
  lemma RootsAre(setting: Setting, name: Name, args: Args)
    ensures RootRule(setting, name, args).Some? <==>
      match name
      case Transaction | TransactionEffects => Get(args, Digest).Text?
      case Checkpoint => Immutable(CheckpointBy, Fields(args))
      case Object => Immutable(ObjectBy, Fields(args)) || ObjectCheckpoint(setting, Fields(args)).Some?
      case Package => Immutable(PackageBy, Fields(args)) || Newest(PackageBy, Fields(args))
      case MultiGetTransactions => AllKeys(args, key => true)
      case MultiGetTransactionEffects => AllKeys(args, key => true)
      case MultiGetCheckpoints => AllKeys(args, key => true)
      case MultiGetObjects =>
        AllKeys(args, key => Immutable(ObjectBy, key) && !Given(Property(key, AtCheckpoint))) || AllKeys(args, key => ObjectCheckpoint(setting, key).Some?)
      case MultiGetPackages => AllKeys(args, key => Immutable(PackageBy, key))
      case Events | Transactions => RangeEnd(setting, Get(args, Filter)).Some?
      case _ => false
  {
  }

  // ---------------------------------------------------------------------------
  // Under a transaction
  // ---------------------------------------------------------------------------

  /** `{ transaction(digest) { via { shown } } }`. */
  function Under(digest: string, via: Name, shown: Name): Document {
    Document(map[], map[],
             [Field(Transaction, None, [Entry(Digest, TextValue(digest))], ALWAYS,
                    [Field(via, None, [], ALWAYS, [Field(shown, None, [], ALWAYS, [])])])])
  }

  function ViaTree(via: Name, shown: Name): Tree {
    Leafed(via, via, [], ALWAYS, [Leafed(shown, shown, [], ALWAYS, [])])
  }

  function UnderTree(digest: string, via: Name, shown: Name): Tree {
    Leafed(Transaction, Transaction, [Entry(Digest, TextValue(digest))], ALWAYS, [ViaTree(via, shown)])
  }

  lemma InlinesLeaf(sel: Selection, tree: Tree, top: bool)
    requires InlineOne(map[], sel, {}, top) == Some(tree)
    ensures Inline(map[], [sel], {}, top) == Some([tree])
  {
    assert [sel][1..] == [] && Inline(map[], [], {}, top) == Some([]) && [tree] + [] == [tree];
  }

  lemma UnderInlines(digest: string, via: Name, shown: Name)
    ensures InlineDocument(Under(digest, via, shown)) == Some([UnderTree(digest, via, shown)])
  {
    var top := Under(digest, via, shown).top[0];
    var below := top.sub[0];
    assert Inline(map[], [], {}, false) == Some([]);
    InlinesLeaf(below.sub[0], Leafed(shown, shown, [], ALWAYS, []), false);
    InlinesLeaf(below, ViaTree(via, shown), false);
    InlinesLeaf(top, UnderTree(digest, via, shown), true);
  }

  /** One field with nothing below it. */
  lemma LeafIsPromised(setting: Setting, vars: Vars, thing: Thing, shown: Name)
    requires !thing.Published?
    ensures var ts := [Leafed(shown, shown, [], ALWAYS, [])];
      && (AllPromised(setting, vars, thing, false, ts) <==> Promised(setting, thing, shown).Some?)
      && ScalarsBare(setting, vars, thing, false, ts)
  {
    var t := Leafed(shown, shown, [], ALWAYS, []);
    assert [t][1..] == [];
    assert OnePromised(setting, vars, thing, false, t) <==> Promised(setting, thing, shown).Some?;
    assert OneBare(setting, vars, thing, false, t);
  }

  lemma ViaIsPromised(setting: Setting, vars: Vars, via: Name, thing: Thing, shown: Name)
    requires Promised(setting, Record, via) == Some(To(thing)) && !thing.Published?
    ensures AllPromised(setting, vars, Record, false, [ViaTree(via, shown)]) <==> Promised(setting, thing, shown).Some?
    ensures ScalarsBare(setting, vars, Record, false, [ViaTree(via, shown)])
  {
    var t := ViaTree(via, shown);
    LeafIsPromised(setting, vars, thing, shown);
    assert [t][1..] == [];
    assert OnePromised(setting, vars, Record, false, t) <==> Promised(setting, thing, shown).Some?;
    assert OneBare(setting, vars, Record, false, t);
  }

  lemma UnderIsClassified(setting: Setting, digest: string, vars: Vars, via: Name, thing: Thing, shown: Name)
    requires Promised(setting, Record, via) == Some(To(thing)) && !thing.Published?
    ensures Classify(setting, Under(digest, via, shown), vars).Some? <==> Promised(setting, thing, shown).Some?
  {
    var doc, t := Under(digest, via, shown), UnderTree(digest, via, shown);
    UnderInlines(digest, via, shown);
    ViaIsPromised(setting, vars, via, thing, shown);
    OneArg(Digest, TextValue(digest), vars);
    assert RootRule(setting, Transaction, FieldsOf(t.args, vars)) == Some(Rule(Data, None));
    assert [t][1..] == [] && (RootPromised(setting, vars, t) <==> Promised(setting, thing, shown).Some?);
    assert RootBare(setting, vars, t) && IsRoot(t);
    ClassifiedExactly(setting, doc, vars);
    InlinesIffAcyclic(doc);
  }

  /**
   * What may be asked of the addresses, owners, epochs, modules and functions
   * that a transaction names: just what is listed here.
   */
  lemma UnderATransaction(setting: Setting, digest: string, vars: Vars, via: Name, shown: Name)
    requires via in setting.dataFields
    ensures via in {Sender, GasSponsor, Funder, Allowance, AsAddress} ==>
      (Classify(setting, Under(digest, via, shown), vars).Some? <==> shown in {Typename, Id, Address})
    ensures via == Owner ==>
      (Classify(setting, Under(digest, via, shown), vars).Some? <==> shown in {Typename, Underscore, Address, InitialSharedVersion, StartVersion})
    ensures via in {Epoch, Expiration} ==>
      (Classify(setting, Under(digest, via, shown), vars).Some? <==> shown in {Typename, Id, EpochId})
    ensures via in {Module, Function, TransactionModule, Package} ==>
      (Classify(setting, Under(digest, via, shown), vars).Some? <==> shown in {Typename, Id, OwnName, FullyQualifiedName, Module, Package, Address})
  {
    var thing := if via == Owner then Ownership else if via in {Epoch, Expiration} then EpochNumber
                 else if via in {Module, Function, TransactionModule, Package} then Named else Account;
    if via in {Sender, GasSponsor, Funder, Allowance, AsAddress, Owner, Epoch, Expiration, Module, Function, TransactionModule, Package} {
      LeadsToThing(setting, via);
      UnderIsClassified(setting, digest, vars, via, thing, shown);
      PromisedOn(setting, thing, shown);
    }
  }

  lemma LeadsToThing(setting: Setting, via: Name)
    requires via in setting.dataFields
    requires via in {Sender, GasSponsor, Funder, Allowance, AsAddress, Owner, Epoch, Expiration, Module, Function, TransactionModule, Package}
    ensures Promised(setting, Record, via) == Some(To(
      if via == Owner then Ownership else if via in {Epoch, Expiration} then EpochNumber
      else if via in {Module, Function, TransactionModule, Package} then Named else Account))
  {
  }

  lemma PromisedOn(setting: Setting, thing: Thing, shown: Name)
    requires !thing.Record? && !thing.Published?
    ensures thing.Account? ==> (Promised(setting, thing, shown).Some? <==> shown in {Typename, Id, Address})
    ensures thing.Ownership? ==>
      (Promised(setting, thing, shown).Some? <==> shown in {Typename, Underscore, Address, InitialSharedVersion, StartVersion})
    ensures thing.EpochNumber? ==> (Promised(setting, thing, shown).Some? <==> shown in {Typename, Id, EpochId})
    ensures thing.Named? ==>
      (Promised(setting, thing, shown).Some? <==> shown in {Typename, Id, OwnName, FullyQualifiedName, Module, Package, Address})
  {
  }
}
