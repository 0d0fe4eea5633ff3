/** The rules of the classifier: which fields each scope allows, and which root reads are bounded. */
module ReplayRules {
  import opened Wrappers
  import opened GraphqlQuery

  /** The kind of value a selection is made on. */
  datatype Scope = Data | Code | Lineage | Ref | Addr | OwnerScope | EpochScope

  /**
   * The field tables of the `data` and `code` scopes, and the number
   * JavaScript's `Number` reads in a string (none for `NaN` and infinities).
   */
  datatype Setting = Setting(dataFields: set<Name>, codeFields: set<Name>, numeral: string -> Option<real>)

  predicate Allowed(setting: Setting, scope: Scope, field: Name) {
    match scope
    case Data => field in setting.dataFields
    case Code => field in setting.dataFields || field in setting.codeFields
    case Lineage => field.Typename?
    case Ref => field.Typename? || field.Id? || field.OwnName? || field.FullyQualifiedName? || field.Module? || field.Package? || field.Address?
    case Addr => field.Typename? || field.Id? || field.Address?
    case OwnerScope => field.Typename? || field.Underscore? || field.Address? || field.InitialSharedVersion? || field.StartVersion?
    case EpochScope => field.Typename? || field.Id? || field.EpochId?
  }

  /** What kind of value `field` leads to. */
  function ChildScope(scope: Scope, field: Name): Scope {
    match field
    case Sender | GasSponsor | Funder | Allowance | AsAddress => Addr
    case Owner => OwnerScope
    case Epoch | Expiration => EpochScope
    case CoinType | PreviousTransaction | Transaction | Effects => Data
    case AsMovePackage => Code
    case Address => if scope == OwnerScope then Addr else scope
    case Module | Function | TransactionModule | Package => if scope == Code then Code else Ref
    case _ => scope
  }

  const MAX_SAFE := 9007199254740991

  /** A checkpoint number: a non-negative safe integer, given as a number or as a string that reads as one. */
  function AsCheckpoint(setting: Setting, arg: Arg): Option<nat> {
    var n: Option<real> :=
      match arg
      case Number(x) => Some(x)
      case Text(t) => setting.numeral(t)
      case _ => None;
    if n.Some? && n.value.Floor as real == n.value && 0 <= n.value.Floor <= MAX_SAFE then Some(n.value.Floor) else None
  }

  /** A checkpoint is read from its number, or from a text that reads as its number, and from nothing else. */
  lemma CheckpointIs(setting: Setting, arg: Arg, c: nat)
    ensures AsCheckpoint(setting, arg) == Some(c)
            <==> c <= 9007199254740991 && (arg == Number(c as real) || (arg.Text? && setting.numeral(arg.text) == Some(c as real)))
  {
  }

  function Min(x: nat, y: nat): nat {
    if x <= y then x else y
  }

  function Max(x: nat, y: nat): nat {
    if x >= y then x else y
  }

  /** Where a filter over checkpoints ends, provided that it has both a start and an end. */
  function RangeEnd(setting: Setting, filter: Arg): Option<nat> {
    var at, after, before := Property(filter, AtCheckpoint), Property(filter, AfterCheckpoint), Property(filter, BeforeCheckpoint);
    if !filter.Fields? && !filter.Items? then None
    else if !Given(at) && AsCheckpoint(setting, after).None? then None
    else if Given(at) && AsCheckpoint(setting, at).None? then None
    else if Given(before) && (AsCheckpoint(setting, before).None? || AsCheckpoint(setting, before).value == 0) then None
    else if Given(at) && Given(before) then Some(Min(AsCheckpoint(setting, at).value, AsCheckpoint(setting, before).value - 1))
    else if Given(at) then AsCheckpoint(setting, at)
    else if Given(before) then Some(AsCheckpoint(setting, before).value - 1)
    else None
  }

  /** A root read that is accepted: the scope of its answer, and its highest checkpoint if it has one. */
  datatype Rule = Rule(scope: Scope, bound: Option<nat>)

  predicate VersionedObject(key: Arg) {
    Given(Property(key, Version)) && !Given(Property(key, RootVersion)) && !Given(Property(key, AtCheckpoint))
  }

  /** The checkpoint of an object key that names one, and no version. */
  function ObjectCheckpoint(setting: Setting, key: Arg): Option<nat> {
    if !Given(Property(key, Version)) && !Given(Property(key, RootVersion))
    then AsCheckpoint(setting, Property(key, AtCheckpoint))
    else None
  }

  function LatestOf(setting: Setting, keys: seq<Arg>): nat {
    if keys == [] then 0
    else
      var first := ObjectCheckpoint(setting, keys[0]);
      Max(if first.Some? then first.value else 0, LatestOf(setting, keys[1..]))
  }

  predicate VersionedPackage(key: Arg) {
    Given(Property(key, Version)) && !Given(Property(key, AtCheckpoint))
  }

  function RootRule(setting: Setting, name: Name, args: Args): Option<Rule> {
    var keys := Get(args, Keys);
    match name
    case Transaction | TransactionEffects =>
      if Get(args, Digest).Text? then Some(Rule(Data, None)) else None
    case MultiGetTransactions | MultiGetTransactionEffects | MultiGetCheckpoints =>
      if keys.Items? && keys.items != [] then Some(Rule(Data, None)) else None
    case Checkpoint =>
      if Given(Get(args, SequenceNumber)) || Given(Get(args, Digest)) then Some(Rule(Data, None)) else None
    case Object =>
      if Given(Get(args, RootVersion)) then None
      else if Given(Get(args, Version)) then Some(Rule(Data, None))
      else
        var at := AsCheckpoint(setting, Get(args, AtCheckpoint));
        if Given(Get(args, AtCheckpoint)) && at.Some? then Some(Rule(Data, at)) else None
    case MultiGetObjects =>
      if !keys.Items? || keys.items == [] then None
      else if forall i :: 0 <= i < |keys.items| ==> VersionedObject(keys.items[i]) then Some(Rule(Data, None))
      else if forall i :: 0 <= i < |keys.items| ==> ObjectCheckpoint(setting, keys.items[i]).Some?
        then Some(Rule(Data, Some(LatestOf(setting, keys.items))))
      else None
    case Package =>
      if Given(Get(args, AtCheckpoint)) then None
      else Some(Rule(if Given(Get(args, Version)) then Code else Lineage, None))
    case MultiGetPackages =>
      if keys.Items? && keys.items != [] && forall i :: 0 <= i < |keys.items| ==> VersionedPackage(keys.items[i])
      then Some(Rule(Code, None)) else None
    case Events | Transactions =>
      var end := RangeEnd(setting, Get(args, Filter));
      if end.None? then None else Some(Rule(Data, end))
    case _ => None
  }

  // ---------------------------------------------------------------------------
  // What rangeEnd bounds
  // ---------------------------------------------------------------------------

  /** The checkpoints a filter lets through: equal to `at`, after `after`, before `before`, as far as each is given. */
  predicate Within(setting: Setting, filter: Arg, checkpoint: nat) {
    var at, after, before := Property(filter, AtCheckpoint), Property(filter, AfterCheckpoint), Property(filter, BeforeCheckpoint);
    && (AsCheckpoint(setting, at).Some? ==> checkpoint == AsCheckpoint(setting, at).value)
    && (AsCheckpoint(setting, after).Some? ==> checkpoint > AsCheckpoint(setting, after).value)
    && (AsCheckpoint(setting, before).Some? ==> checkpoint < AsCheckpoint(setting, before).value)
  }

  /** The filter says where its range starts. */
  predicate ClosedStart(setting: Setting, filter: Arg) {
    AsCheckpoint(setting, Property(filter, AtCheckpoint)).Some? || AsCheckpoint(setting, Property(filter, AfterCheckpoint)).Some?
  }

  /** Every checkpoint a classified filter lets through is at most its range end, and its start is closed. */
  lemma RangeEndBounds(setting: Setting, filter: Arg, checkpoint: nat)
    requires RangeEnd(setting, filter).Some?
    ensures ClosedStart(setting, filter)
    ensures Within(setting, filter, checkpoint) ==> checkpoint <= RangeEnd(setting, filter).value
  {
  }

  /** No smaller bound would do: the range end is itself let through, unless the filter lets nothing through. */
  lemma RangeEndIsTight(setting: Setting, filter: Arg, checkpoint: nat)
    requires RangeEnd(setting, filter).Some? && Within(setting, filter, checkpoint)
    ensures Within(setting, filter, RangeEnd(setting, filter).value)
  {
  }

  /**
   * For a filter whose checkpoints, where given, read as checkpoints and whose
   * end is not 0: a range end exists exactly when both ends are closed.
   */
  lemma RangeEndIffClosed(setting: Setting, filter: Arg)
    requires filter.Fields?
    requires forall n :: n in {AtCheckpoint, AfterCheckpoint, BeforeCheckpoint} && Given(Property(filter, n)) ==>
      AsCheckpoint(setting, Property(filter, n)).Some?
    requires AsCheckpoint(setting, Property(filter, BeforeCheckpoint)) != Some(0)
    ensures RangeEnd(setting, filter).Some?
            <==> ClosedStart(setting, filter) && (Given(Property(filter, AtCheckpoint)) || Given(Property(filter, BeforeCheckpoint)))
  {
    assert AtCheckpoint in {AtCheckpoint, AfterCheckpoint, BeforeCheckpoint};
    assert AfterCheckpoint in {AtCheckpoint, AfterCheckpoint, BeforeCheckpoint};
    assert BeforeCheckpoint in {AtCheckpoint, AfterCheckpoint, BeforeCheckpoint};
  }

  /** The bound of a list of object keys covers the checkpoint of each. */
  lemma {:induction false} LatestCovers(setting: Setting, keys: seq<Arg>, i: nat)
    requires i < |keys| && ObjectCheckpoint(setting, keys[i]).Some?
    ensures ObjectCheckpoint(setting, keys[i]).value <= LatestOf(setting, keys)
  {
    if i > 0 { LatestCovers(setting, keys[1..], i - 1); }
  }

  /** And it is no later than need be: it is the checkpoint of one of them. */
  lemma {:induction false} LatestIsOne(setting: Setting, keys: seq<Arg>) returns (i: nat)
    requires keys != [] && forall k :: 0 <= k < |keys| ==> ObjectCheckpoint(setting, keys[k]).Some?
    ensures i < |keys| && ObjectCheckpoint(setting, keys[i]).value == LatestOf(setting, keys)
  {
    i := 0;
    if |keys| > 1 {
      var later := LatestIsOne(setting, keys[1..]);
      if ObjectCheckpoint(setting, keys[0]).value < LatestOf(setting, keys[1..]) {
        i := later + 1;
      }
    }
  }
}
