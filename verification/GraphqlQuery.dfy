/** GraphQL documents, as the classifier and the service see them, and the inlining of fragments. */
module GraphqlQuery {
  import opened Wrappers

  /**
   * Identifiers: field, argument and response names. The names the classifier
   * mentions are listed; every other name is `Other`.
   */
  datatype Name =
    | Transaction | TransactionEffects | MultiGetTransactions | MultiGetTransactionEffects | MultiGetCheckpoints
    | Checkpoint | Object | MultiGetObjects | Package | MultiGetPackages | Events | Transactions | PackageAt
    | Sender | GasSponsor | Funder | Allowance | AsAddress | Owner | Epoch | Expiration | CoinType | PreviousTransaction
    | Effects | AsMovePackage | Address | Module | Function | TransactionModule
    | Typename | Id | OwnName | FullyQualifiedName | InitialSharedVersion | StartVersion | EpochId | Underscore
    | Digest | Keys | SequenceNumber | Version | RootVersion | AtCheckpoint | AfterCheckpoint | BeforeCheckpoint | Filter
    | Other(text: string)

  /** A value written in a document. */
  datatype Value =
    | Variable(name: string)
    | NumberValue(number: real)
    | TextValue(text: string)
    | BooleanValue(flag: bool)
    | NullValue
    | ListValue(values: seq<Value>)
    | ObjectValue(fields: seq<Entry>)

  /** One `name: value` of an object or an argument list. */
  datatype Entry = Entry(name: Name, value: Value)

  /** A value once variables are filled in; `Undefined` is a variable nobody gave. */
  datatype Arg =
    | Undefined
    | Null
    | Number(number: real)
    | Text(text: string)
    | Boolean(flag: bool)
    | Items(items: seq<Arg>)
    | Fields(fields: map<Name, Arg>)

  type Vars = map<string, Arg>
  type Args = map<Name, Arg>

  function ValueOf(node: Value, vars: Vars): Arg
    decreases node, 1
  {
    match node
    case Variable(name) => if name in vars then vars[name] else Undefined
    case NumberValue(n) => Number(n)
    case TextValue(t) => Text(t)
    case BooleanValue(b) => Boolean(b)
    case NullValue => Null
    case ListValue(values) => Items(ValuesOf(values, vars))
    case ObjectValue(fields) => Fields(FieldsOf(fields, vars))
  }

  function ValuesOf(nodes: seq<Value>, vars: Vars): seq<Arg>
    decreases nodes, 0
  {
    if nodes == [] then [] else [ValueOf(nodes[0], vars)] + ValuesOf(nodes[1..], vars)
  }

  /** `Object.fromEntries`: of two entries with one name the later counts. */
  function FieldsOf(fields: seq<Entry>, vars: Vars): Args
    decreases fields, 0
  {
    if fields == [] then map[]
    else map[fields[0].name := EntryValue(fields[0], vars)] + FieldsOf(fields[1..], vars)
  }

  function EntryValue(entry: Entry, vars: Vars): Arg
    decreases entry, 2
  {
    ValueOf(entry.value, vars)
  }

  function Get(args: Args, name: Name): Arg {
    if name in args then args[name] else Undefined
  }

  /** A property of a value, undefined on anything but an object. */
  function Property(arg: Arg, name: Name): Arg {
    if arg.Fields? then Get(arg.fields, name) else Undefined
  }

  predicate Given(arg: Arg) {
    !arg.Undefined? && !arg.Null?
  }

  /** `@skip(if:)` and `@include(if:)`. */
  datatype Conditions = Conditions(skip: Option<Value>, only: Option<Value>)

  predicate Shown(cond: Conditions, vars: Vars) {
    && (cond.skip.Some? ==> ValueOf(cond.skip.value, vars) != Boolean(true))
    && (cond.only.Some? ==> ValueOf(cond.only.value, vars) == Boolean(true))
  }

  datatype Selection =
    | Field(name: Name, alias: Option<Name>, args: seq<Entry>, cond: Conditions, sub: seq<Selection>)
    | InlineFragment(on: Option<string>, cond: Conditions, sub: seq<Selection>)
    | Spread(fragment: string, cond: Conditions)

  datatype Fragment = Fragment(on: string, sub: seq<Selection>)

  /** A document with one query operation. */
  datatype Document = Document(fragments: map<string, Fragment>, defaults: Vars, top: seq<Selection>)

  function KeyOf(name: Name, alias: Option<Name>): Name {
    if alias.Some? then alias.value else name
  }

  // ---------------------------------------------------------------------------
  // Inlining
  // ---------------------------------------------------------------------------

  /**
   * A selection with every fragment in place. A group keeps the name of the
   * fragment it came from, which field collection uses to visit it once.
   */
  datatype Tree =
    | Leafed(name: Name, key: Name, args: seq<Entry>, cond: Conditions, sub: seq<Tree>)
    | Group(origin: Option<string>, on: Option<string>, cond: Conditions, sub: seq<Tree>)

  type Fragments = map<string, Fragment>

  lemma SeenGrows(fragments: Fragments, seen: set<string>, f: string)
    requires f in fragments && f !in seen
    ensures |fragments.Keys - (seen + {f})| < |fragments.Keys - seen|
  {
    var left := fragments.Keys - (seen + {f});
    assert fragments.Keys - seen == left + {f};
  }

  /**
   * The selections with fragments in place; none when a spread names a fragment
   * in `seen` or one that does not exist. At the top (`top`), a field's own
   * selections start with nothing seen, and `__typename` is the leaf it is.
   */
  function Inline(fragments: Fragments, sels: seq<Selection>, seen: set<string>, top: bool): Option<seq<Tree>>
    decreases top, |fragments.Keys - seen|, sels
  {
    if sels == [] then Some([])
    else
      var first := InlineOne(fragments, sels[0], seen, top);
      var rest := Inline(fragments, sels[1..], seen, top);
      if first.None? || rest.None? then None else Some([first.value] + rest.value)
  }

  function InlineOne(fragments: Fragments, sel: Selection, seen: set<string>, top: bool): Option<Tree>
    decreases top, |fragments.Keys - seen|, sel
  {
    match sel
    case Field(name, alias, args, cond, sub) =>
      var inner :=
        if !top then Inline(fragments, sub, seen, false)
        else if name == Typename then Some([])
        else Inline(fragments, sub, {}, false);
      if inner.None? then None else Some(Leafed(name, KeyOf(name, alias), args, cond, inner.value))
    case InlineFragment(on, cond, sub) =>
      var inner := Inline(fragments, sub, seen, top);
      if inner.None? then None else Some(Group(None, on, cond, inner.value))
    case Spread(f, cond) =>
      if f !in fragments || f in seen then None
      else
        SeenGrows(fragments, seen, f);
        var inner := Inline(fragments, fragments[f].sub, seen + {f}, top);
        if inner.None? then None else Some(Group(Some(f), Some(fragments[f].on), cond, inner.value))
  }

  function InlineDocument(doc: Document): Option<seq<Tree>> {
    Inline(doc.fragments, doc.top, {}, true)
  }

  // ---------------------------------------------------------------------------
  // Inlining succeeds exactly when chains of spreads are defined and end
  // ---------------------------------------------------------------------------

  /**
   * Every chain of spreads that starts in `sels` names fragments that exist and
   * is at most `n` long.
   */
  ghost predicate Resolves(fragments: Fragments, sels: seq<Selection>, n: int, top: bool)
    decreases n, sels
  {
    n >= 0 && (sels != [] ==> ResolvesOne(fragments, sels[0], n, top) && Resolves(fragments, sels[1..], n, top))
  }

  ghost predicate ResolvesOne(fragments: Fragments, sel: Selection, n: int, top: bool)
    requires n >= 0
    decreases n, sel
  {
    match sel
    case Field(name, _, _, _, sub) => (top && name == Typename) || Resolves(fragments, sub, n, false)
    case InlineFragment(_, _, sub) => Resolves(fragments, sub, n, top)
    case Spread(f, _) => f in fragments && n > 0 && Resolves(fragments, fragments[f].sub, n - 1, top)
  }

  lemma {:induction false} ResolvesMore(fragments: Fragments, sels: seq<Selection>, n: int, m: int, top: bool)
    requires Resolves(fragments, sels, n, top) && n <= m
    ensures Resolves(fragments, sels, m, top)
    decreases n, sels
  {
    if sels != [] {
      ResolvesMore(fragments, sels[1..], n, m, top);
      match sels[0] {
        case Field(name, _, _, _, sub) => if !(top && name == Typename) { ResolvesMore(fragments, sub, n, m, false); }
        case InlineFragment(_, _, sub) => ResolvesMore(fragments, sub, n, m, top);
        case Spread(f, _) => ResolvesMore(fragments, fragments[f].sub, n - 1, m - 1, top);
      }
    }
  }

  /** Inlining expands chains at most twice as long as there are fragments: once at the top, once below a root field. */
  lemma {:induction false} InlinedResolves(fragments: Fragments, sels: seq<Selection>, seen: set<string>, top: bool)
    requires Inline(fragments, sels, seen, top).Some?
    ensures Resolves(fragments, sels, ChainBound(fragments, seen, top), top)
    decreases top, |fragments.Keys - seen|, sels
  {
    if sels != [] {
      InlinedOneResolves(fragments, sels[0], seen, top);
      InlinedResolves(fragments, sels[1..], seen, top);
    }
  }

  function ChainBound(fragments: Fragments, seen: set<string>, top: bool): nat {
    |fragments.Keys - seen| + if top then |fragments.Keys| else 0
  }

  lemma {:induction false} InlinedOneResolves(fragments: Fragments, sel: Selection, seen: set<string>, top: bool)
    requires InlineOne(fragments, sel, seen, top).Some?
    ensures ResolvesOne(fragments, sel, ChainBound(fragments, seen, top), top)
    decreases top, |fragments.Keys - seen|, sel
  {
    match sel
    case Field(name, _, _, _, sub) =>
      if top && name != Typename {
        InlinedResolves(fragments, sub, {}, false);
        assert fragments.Keys - {} == fragments.Keys;
        ResolvesMore(fragments, sub, |fragments.Keys|, ChainBound(fragments, seen, top), false);
      } else if !top {
        InlinedResolves(fragments, sub, seen, false);
      }
    case InlineFragment(_, _, sub) =>
      InlinedResolves(fragments, sub, seen, top);
    case Spread(f, _) =>
      SeenGrows(fragments, seen, f);
      InlinedResolves(fragments, fragments[f].sub, seen + {f}, top);
      ResolvesMore(fragments, fragments[f].sub, ChainBound(fragments, seen + {f}, top), ChainBound(fragments, seen, top) - 1, top);
  }

  /** The least chain bound of `sels`. */
  lemma {:induction false} LeastBound(fragments: Fragments, sels: seq<Selection>, n: int, top: bool) returns (least: int)
    requires Resolves(fragments, sels, n, top)
    ensures 0 <= least <= n && Resolves(fragments, sels, least, top) && !Resolves(fragments, sels, least - 1, top)
    decreases n
  {
    if Resolves(fragments, sels, n - 1, top) {
      least := LeastBound(fragments, sels, n - 1, top);
    } else {
      least := n;
    }
  }

  /** A fragment already seen needs longer chains than those left here, so it cannot come up again. */
  ghost predicate SeenNeedMore(fragments: Fragments, seen: set<string>, n: int, top: bool) {
    forall f :: f in seen && f in fragments ==> !Resolves(fragments, fragments[f].sub, n - 1, top)
  }

  lemma {:induction false} ResolvedInlines(fragments: Fragments, sels: seq<Selection>, seen: set<string>, n: int, top: bool)
    requires Resolves(fragments, sels, n, top) && SeenNeedMore(fragments, seen, n, top)
    ensures Inline(fragments, sels, seen, top).Some?
    decreases n, sels
  {
    if sels != [] {
      ResolvedInlines(fragments, sels[1..], seen, n, top);
      match sels[0] {
        case Field(name, _, _, _, sub) =>
          if top && name != Typename {
            ResolvedInlines(fragments, sub, {}, n, false);
          } else if !top {
            ResolvedInlines(fragments, sub, seen, n, false);
          }
        case InlineFragment(_, _, sub) => ResolvedInlines(fragments, sub, seen, n, top);
        case Spread(f, _) =>
          var least := LeastBound(fragments, fragments[f].sub, n - 1, top);
          SpreadNeedsMore(fragments, seen, f, n, least, top);
          ResolvedInlines(fragments, fragments[f].sub, seen + {f}, least, top);
      }
    }
  }

  lemma SpreadNeedsMore(fragments: Fragments, seen: set<string>, f: string, n: int, least: int, top: bool)
    requires SeenNeedMore(fragments, seen, n, top) && f in fragments && least <= n - 1
    requires Resolves(fragments, fragments[f].sub, n - 1, top) && !Resolves(fragments, fragments[f].sub, least - 1, top)
    ensures f !in seen && SeenNeedMore(fragments, seen + {f}, least, top)
  {
    forall g | g in seen + {f} && g in fragments ensures !Resolves(fragments, fragments[g].sub, least - 1, top) {
      if g in seen && Resolves(fragments, fragments[g].sub, least - 1, top) {
        ResolvesMore(fragments, fragments[g].sub, least - 1, n - 1, top);
      }
    }
  }

  /** Chains of spreads have a longest one. */
  ghost predicate Resolvable(doc: Document) {
    exists n :: Resolves(doc.fragments, doc.top, n, true)
  }

  /** A document inlines exactly when every spread it reaches is defined and chains of spreads have a longest one. */
  lemma InlinesIffResolvable(doc: Document)
    ensures InlineDocument(doc).Some? <==> Resolvable(doc)
  {
    if InlineDocument(doc).Some? {
      InlinedResolves(doc.fragments, doc.top, {}, true);
    }
    if Resolvable(doc) {
      var n :| Resolves(doc.fragments, doc.top, n, true);
      var least := LeastBound(doc.fragments, doc.top, n, true);
      ResolvedInlines(doc.fragments, doc.top, {}, least, true);
    }
  }
}
